/** Compiled code means what the pattern means as a Parsing Expression Grammar. */
module LpegCorrect {
  import opened LpegCode
  import opened LpegMachine
  import opened LpegPeg
  import opened LpegOpen
  import opened LpegBlock
  import opened LpegExec
  import opened LpegRun
  import opened LpegBuild
  import opened LpegShape
  import opened LpegVerify
  import opened LpegUnion
  import opened LpegOperators
  import opened LpegRepeat

  // ---- the block behind a pattern ----

  function BlockOf(p: Patt): Block {
    match p
    case Str(s) => StrBlock(s)
    case Num(k) => NumBlock(k)
    case Bool(truth) => if truth then End else Prim(IFail, End)
    case SetP(cs) => Prim(ICheck(Set(cs), 0), End)
    case Seq(a, b) => SeqBlock(BlockOf(a), BlockOf(b))
    case Alt(a, b) => AltBlock(BlockOf(a), BlockOf(b))
    case Diff(a, b) => DiffBlock(BlockOf(a), BlockOf(b))
    case Neg(a) => NegBlock(BlockOf(a))
    case AndP(a) => AndBlock(BlockOf(a))
    case Rept(a, n) => if n >= 0 then StarBlock(BlockOf(a), n) else AtMostOf(BlockOf(a), -n)
    case Capt(kind, idx, a) => CaptBlock(kind, idx, BlockOf(a))
    case Mark(fromTable, kind, idx) => Prim(ICapture(if fromTable then EmptyCapIdx else EmptyCap, idx, kind, 0), End)
    case NonTerm(key) => Prim(IOpenCall(key), End)
  }

  /** The code of every pattern that compiles is the code of its block. */
  lemma {:induction false} Laid(p: Patt)
    requires Compile(p).Pattern?
    ensures Good(BlockOf(p)) && Flat(BlockOf(p)) == Compile(p).code
  {
    hide Good, Flat, SeqBlock, AltBlock, DiffBlock, NegBlock, AndBlock, StarBlock, AtMostOf, CaptBlock;
    hide Concat, UnionCode, DiffCode, NegCode, AndCode, StarCode, AtMostCode, CaptureCode;
    match p
    case Seq(a, b) => Laid(a); Laid(b); SeqIs(BlockOf(a), BlockOf(b));
    case Alt(a, b) => Laid(a); Laid(b); AltIs(BlockOf(a), BlockOf(b));
    case Diff(a, b) => Laid(a); Laid(b); DiffIs(BlockOf(a), BlockOf(b));
    case Neg(a) => Laid(a); NegIsGood(BlockOf(a));
    case AndP(a) => Laid(a); AndIsGood(BlockOf(a));
    case Rept(a, n) => Laid(a); if n >= 0 { StarIs(BlockOf(a), n); } else { AtMostIs(BlockOf(a), -n); }
    case Capt(kind, idx, a) => Laid(a); CaptIs(kind, idx, BlockOf(a));
    case NonTerm(key) => OpenIs(key);
    case _ => LaidPrimitive(p);
  }

  lemma OpenIs(key: int)
    ensures Good(Prim(IOpenCall(key), End)) && Flat(Prim(IOpenCall(key), End)) == [IOpenCall(key)]
  {
    EndGood();
    PrimGood(IOpenCall(key), End);
    OnePrim(Prim(IOpenCall(key), End));
    assert Words(IOpenCall(key)) == [IOpenCall(key)];
  }

  lemma LaidPrimitive(p: Patt)
    requires (p.Str? || p.Num? || p.Bool? || p.SetP? || p.Mark?) && Compile(p).Pattern?
    ensures Good(BlockOf(p)) && Flat(BlockOf(p)) == Compile(p).code
  {
    match p
    case Str(s) => StrIs(s);
    case Num(k) => NumIs(k);
    case Bool(truth) => EndGood(); FailIs();
    case SetP(cs) => SetBlock(cs);
    case Mark(fromTable, kind, idx) => MarkMeans(fromTable, kind, idx);
  }

  /** No assertion of verify fails when star_l calls it, whatever the pattern. */
  lemma {:induction false} NeverBad(p: Patt)
    ensures !Compile(p).BadCode?
  {
    match p
    case Seq(a, b) => NeverBad(a); NeverBad(b);
    case Alt(a, b) => NeverBad(a); NeverBad(b);
    case Diff(a, b) => NeverBad(a); NeverBad(b);
    case Neg(a) => NeverBad(a);
    case AndP(a) => NeverBad(a);
    case Rept(a, n) => NeverBad(a); if Compile(a).Pattern? && n >= 0 { LoopNotBad(a, n); }
    case Capt(_, _, a) => NeverBad(a);
    case _ =>
  }

  lemma LoopNotBad(a: Patt, n: nat)
    requires Compile(a).Pattern?
    ensures !StarCode(Compile(a).code, n).BadCode?
  {
    hide Good, Flat, VRun, BlockOf, ToCharset, IsHeadFail, OptCaps, OptJumps;
    Laid(a);
    VerifySound(BlockOf(a));
  }

  // ---- where the operators are right ----

  /**
    Where the two operators that look at code without looking closely enough are right: the
    merge of two IAny instructions, and a union that splits a left operand whose tests it
    turns back into choices.
   */
  ghost predicate Sane(p: Patt) {
    match p
    case Seq(a, b) => Sane(a) && Sane(b)
      && (Compile(a).Pattern? && Compile(b).Pattern? ==> SaneSeq(Compile(a).code, Compile(b).code))
    case Alt(a, b) => Sane(a) && Sane(b) && (Compile(a).Pattern? && Compile(b).Pattern? ==> SaneAlt(a, Compile(b).code))
    case Diff(a, b) => Sane(a) && Sane(b)
    case Neg(a) => Sane(a)
    case AndP(a) => Sane(a)
    case Rept(a, _) => Sane(a)
    case Capt(_, _, a) => Sane(a)
    case _ => true
  }

  predicate SaneSeq(c1: Code, c2: Code) {
    IsAnyCode(c1) && IsAnyCode(c2) ==> MergeOk(c1[0], c2[0])
  }

  /** No new last alternative of a is tried at another position than the one where a starts. */
  ghost predicate SaneAlt(a: Patt, c2: Code)
    requires Compile(a).Pattern?
  {
    Laid(a);
    IsFailCode(c2) || !Slips(BlockOf(a))
  }

  /** No sequence in p loses its first operand because the second one always fails. */
  predicate Lossless(p: Patt) {
    match p
    case Seq(a, b) => Lossless(a) && Lossless(b) && !SeqLoses(a, b)
    case Alt(a, b) => Lossless(a) && Lossless(b)
    case Diff(a, b) => Lossless(a) && Lossless(b)
    case Neg(a) => Lossless(a)
    case AndP(a) => Lossless(a)
    case Rept(a, _) => Lossless(a)
    case Capt(_, _, a) => Lossless(a)
    case _ => true
  }

  predicate SeqLoses(a: Patt, b: Patt) {
    Compile(a).Pattern? && Compile(b).Pattern? && Loses(Compile(a).code, Compile(b).code)
  }

  /** What is left of p when every sequence that loses its first operand is its second one. */
  function Kept(p: Patt): Patt {
    match p
    case Seq(a, b) => if SeqLoses(a, b) then Kept(b) else Seq(Kept(a), Kept(b))
    case Alt(a, b) => Alt(Kept(a), Kept(b))
    case Diff(a, b) => Diff(Kept(a), Kept(b))
    case Neg(a) => Neg(Kept(a))
    case AndP(a) => AndP(Kept(a))
    case Rept(a, n) => Rept(Kept(a), n)
    case Capt(kind, idx, a) => Capt(kind, idx, Kept(a))
    case _ => p
  }

  lemma {:induction false} KeptAll(p: Patt)
    requires Lossless(p)
    ensures Kept(p) == p
  {
    match p
    case Seq(a, b) => KeptAll(a); KeptAll(b);
    case Alt(a, b) => KeptAll(a); KeptAll(b);
    case Diff(a, b) => KeptAll(a); KeptAll(b);
    case Neg(a) => KeptAll(a);
    case AndP(a) => KeptAll(a);
    case Rept(a, _) => KeptAll(a);
    case Capt(_, _, a) => KeptAll(a);
    case _ =>
  }

  /** Dropping what the builders drop changes no code. */
  lemma {:induction false} KeptCode(p: Patt)
    requires Compile(p).Pattern?
    ensures Compile(Kept(p)) == Compile(p) && BlockOf(Kept(p)) == BlockOf(p) && Lossless(Kept(p))
    ensures Sane(p) ==> Sane(Kept(p))
  {
    hide SeqBlock, AltBlock, DiffBlock, NegBlock, AndBlock, StarBlock, AtMostOf, CaptBlock, Slips;
    hide UnionCode, DiffCode, NegCode, AndCode, StarCode, AtMostCode, CaptureCode;
    match p
    case Seq(a, b) => KeptCode(a); KeptCode(b); if SeqLoses(a, b) { LostBlock(a, b); }
    case Alt(a, b) => KeptCode(a); KeptCode(b);
    case Diff(a, b) => KeptCode(a); KeptCode(b);
    case Neg(a) => KeptCode(a);
    case AndP(a) => KeptCode(a);
    case Rept(a, _) => KeptCode(a);
    case Capt(_, _, a) => KeptCode(a);
    case _ =>
  }

  lemma LostBlock(a: Patt, b: Patt)
    requires SeqLoses(a, b)
    ensures SeqBlock(BlockOf(a), BlockOf(b)) == BlockOf(b) && Compile(Seq(a, b)) == Compile(b)
  {
    hide Flat, Good, BlockOf;
    Laid(a);
    Laid(b);
  }

  // ---- every compiled pattern means what it should ----

  lemma {:induction false} Compiled(p: Patt)
    requires Sane(p) && Lossless(p) && Compile(p).Pattern?
    ensures Means(BlockOf(p), Compile(p).code, p)
    decreases p, 0
  {
    hide Means, Flat, SeqBlock, AltBlock, DiffBlock, NegBlock, AndBlock, StarBlock, AtMostOf, CaptBlock, Slips, Loses;
    hide Concat, UnionCode, DiffCode, NegCode, AndCode, StarCode, AtMostCode, CaptureCode;
    match p
    case Seq(a, b) => CompiledParts(a); CompiledParts(b); SeqMeans(a, b, BlockOf(a), BlockOf(b));
    case Alt(a, b) => CompiledParts(a); CompiledParts(b); AltMeans(a, b, BlockOf(a), BlockOf(b));
    case Diff(a, b) => CompiledParts(a); CompiledParts(b); DiffMeans(a, b, BlockOf(a), BlockOf(b));
    case Neg(a) => CompiledParts(a); NegMeans(a, BlockOf(a));
    case AndP(a) => CompiledParts(a); AndMeans(a, BlockOf(a));
    case Rept(a, n) =>
      CompiledParts(a);
      if n >= 0 { StarMeans(a, BlockOf(a), n); } else { AtMostMeans(a, BlockOf(a), -n); }
    case Capt(kind, idx, a) => CompiledParts(a); CaptMeans(kind, idx, a, BlockOf(a));
    case NonTerm(key) => OpenMeans(key);
    case _ => CompiledPrimitive(p);
  }

  lemma {:induction false} CompiledParts(p: Patt)
    requires Sane(p) && Lossless(p) && Compile(p).Pattern?
    ensures Means(BlockOf(p), Flat(BlockOf(p)), p) && Flat(BlockOf(p)) == Compile(p).code
    decreases p, 1
  {
    Compiled(p);
    Laid(p);
  }

  lemma OpenMeans(key: int)
    ensures Means(Prim(IOpenCall(key), End), [IOpenCall(key)], NonTerm(key))
  {
    OpenIs(key);
    var b := Prim(IOpenCall(key), End);
    forall x: Subject, i: int, caps: seq<Capture> | 0 <= i <= |x.s|
      ensures Agrees(EvalB(b, x, i, caps), Eval(NonTerm(key), x, i), caps)
    {
      Alone(b, x, i, caps);
    }
  }

  lemma CompiledPrimitive(p: Patt)
    requires (p.Str? || p.Num? || p.Bool? || p.SetP? || p.Mark?) && Compile(p).Pattern?
    ensures Means(BlockOf(p), Compile(p).code, p)
  {
    hide Means;
    match p
    case Str(s) => StrMeans(s);
    case Num(k) => NumMeans(k);
    case Bool(truth) => BoolMeans(truth);
    case SetP(cs) => SetMeans(cs);
    case Mark(fromTable, kind, idx) => MarkMeans(fromTable, kind, idx);
  }

  // ---- what is dropped matters only where the semantics gives no result ----

  /** Where p has a result, what is kept of p has the same. */
  predicate SameThere(p: Patt, q: Patt, x: Subject, i: int)
    requires 0 <= i <= |x.s|
  {
    !Eval(p, x, i).Diverge? ==> Eval(q, x, i) == Eval(p, x, i)
  }

  lemma {:induction false} KeptEval(p: Patt, x: Subject, i: int)
    requires Sane(p) && Compile(p).Pattern? && 0 <= i <= |x.s|
    ensures SameThere(p, Kept(p), x, i)
    decreases p, 0, 0
  {
    hide Sane, Compile, Eval, SameThere, SeqLoses;
    SaneParts(p);
    PatternParts(p);
    match p
    case Seq(a, b) =>
      var r := Eval(a, x, i);
      KeptEval(a, x, i);
      if r.Ok? { KeptEval(b, x, r.j); }
      if SeqLoses(a, b) {
        LostFails(a, b, x, i);
        if r.Ok? { LostFails(a, b, x, r.j); }
        SameLost(a, b, x, i);
      } else {
        SameSeq(a, b, x, i);
      }
    case Alt(a, b) => KeptEval(a, x, i); KeptEval(b, x, i); SameJoin(p, x, i);
    case Diff(a, b) => KeptEval(a, x, i); KeptEval(b, x, i); SameJoin(p, x, i);
    case Neg(a) => KeptEval(a, x, i); SameOver(p, x, i);
    case AndP(a) => KeptEval(a, x, i); SameOver(p, x, i);
    case Rept(a, n) =>
      if n < 0 { KeptAtMost(a, -n, x, i); } else {
        KeptTimes(a, n, x, i);
        var r := EvalTimes(a, n, x, i);
        if r.Ok? { KeptLoop(a, x, r.j); }
      }
      SameRept(a, n, x, i);
    case Capt(_, _, a) => KeptEval(a, x, i); SameOver(p, x, i);
    case _ => SameLeaf(p, x, i);
  }

  lemma PatternParts(p: Patt)
    requires Compile(p).Pattern?
    ensures p.Seq? || p.Alt? || p.Diff? ==> Compile(p.a).Pattern? && Compile(p.b).Pattern?
    ensures p.Neg? || p.AndP? || p.Rept? || p.Capt? ==> Compile(p.a).Pattern?
  {
    hide Concat, UnionCode, DiffCode, NegCode, AndCode, StarCode, AtMostCode, CaptureCode, StrCode, NumCode, NewPatt,
      Words;
  }

  lemma {:induction false} SameLeaf(p: Patt, x: Subject, i: int)
    requires 0 <= i <= |x.s| && Kept(p) == p
    ensures SameThere(p, Kept(p), x, i)
  {
  }

  lemma {:induction false} SameSeq(a: Patt, b: Patt, x: Subject, i: int)
    requires 0 <= i <= |x.s| && SameThere(a, Kept(a), x, i) && !SeqLoses(a, b)
    requires var r := Eval(a, x, i); r.Ok? ==> SameThere(b, Kept(b), x, r.j)
    ensures SameThere(Seq(a, b), Kept(Seq(a, b)), x, i)
  {
    hide SeqLoses;
  }

  lemma {:induction false} SameLost(a: Patt, b: Patt, x: Subject, i: int)
    requires 0 <= i <= |x.s| && SeqLoses(a, b) && Eval(Kept(b), x, i) == Fail
    requires var r := Eval(a, x, i); r.Ok? ==> Eval(Kept(b), x, r.j) == Fail && SameThere(b, Kept(b), x, r.j)
    ensures SameThere(Seq(a, b), Kept(Seq(a, b)), x, i)
  {
    hide SeqLoses;
  }

  lemma {:induction false} SameJoin(p: Patt, x: Subject, i: int)
    requires 0 <= i <= |x.s| && (p.Alt? || p.Diff?) && SameThere(p.a, Kept(p.a), x, i)
             && SameThere(p.b, Kept(p.b), x, i)
    ensures SameThere(p, Kept(p), x, i)
  {
  }

  lemma {:induction false} SameOver(p: Patt, x: Subject, i: int)
    requires 0 <= i <= |x.s| && (p.Neg? || p.AndP? || p.Capt?) && SameThere(p.a, Kept(p.a), x, i)
    ensures SameThere(p, Kept(p), x, i)
  {
  }

  lemma {:induction false} SameRept(a: Patt, n: int, x: Subject, i: int)
    requires 0 <= i <= |x.s|
    requires n < 0 ==> !EvalAtMost(a, -n, x, i).Diverge? ==> EvalAtMost(Kept(a), -n, x, i) == EvalAtMost(a, -n, x, i)
    requires n >= 0 ==> !EvalTimes(a, n, x, i).Diverge? ==> EvalTimes(Kept(a), n, x, i) == EvalTimes(a, n, x, i)
    requires n >= 0 ==> var r := EvalTimes(a, n, x, i);
      r.Ok? ==> !EvalLoop(a, x, r.j).Diverge? ==> EvalLoop(Kept(a), x, r.j) == EvalLoop(a, x, r.j)
    ensures SameThere(Rept(a, n), Kept(Rept(a, n)), x, i)
  {
    hide EvalTimes, EvalLoop, EvalAtMost;
  }

  lemma LostFails(a: Patt, b: Patt, x: Subject, i: int)
    requires Sane(b) && SeqLoses(a, b) && 0 <= i <= |x.s|
    ensures Eval(Kept(b), x, i) == Fail
  {
    hide Good, Flat;
    KeptCode(b);
    CompiledParts(Kept(b));
    GoodOf(BlockOf(b));
    FailFirstEval(BlockOf(b), Kept(b), x, i);
  }

  lemma {:induction false} KeptTimes(a: Patt, n: nat, x: Subject, i: int)
    requires Sane(a) && Compile(a).Pattern? && 0 <= i <= |x.s|
    ensures !EvalTimes(a, n, x, i).Diverge? ==> EvalTimes(Kept(a), n, x, i) == EvalTimes(a, n, x, i)
    decreases a, 1, n
  {
    hide Eval;
    if n > 0 {
      KeptEval(a, x, i);
      var r := Eval(a, x, i);
      if r.Ok? { KeptTimes(a, n - 1, x, r.j); }
    }
  }

  lemma {:induction false} KeptLoop(a: Patt, x: Subject, i: int)
    requires Sane(a) && Compile(a).Pattern? && 0 <= i <= |x.s|
    ensures !EvalLoop(a, x, i).Diverge? ==> EvalLoop(Kept(a), x, i) == EvalLoop(a, x, i)
    decreases a, 1, |x.s| - i
  {
    hide Eval;
    KeptEval(a, x, i);
    var r := Eval(a, x, i);
    if r.Ok? && r.j > i { KeptLoop(a, x, r.j); }
  }

  lemma {:induction false} KeptAtMost(a: Patt, n: nat, x: Subject, i: int)
    requires Sane(a) && Compile(a).Pattern? && 0 <= i <= |x.s|
    ensures !EvalAtMost(a, n, x, i).Diverge? ==> EvalAtMost(Kept(a), n, x, i) == EvalAtMost(a, n, x, i)
    decreases a, 1, n
  {
    hide Eval;
    if n > 0 {
      KeptEval(a, x, i);
      var r := Eval(a, x, i);
      if r.Ok? { KeptAtMost(a, n - 1, x, r.j); }
    }
  }

  // ---- whole runs ----

  /** The final state that the meaning r asks for. */
  function Final(r: Res): State {
    if r.Ok? then Matched(r.j, r.caps) else NoMatch
  }

  lemma OkEnds(c: Code, x: Subject, i: int, j: int, caps: seq<Capture>)
    requires 0 <= j <= |x.s| && Yields(c, x, Init(i), Ok(j, caps), |c|, [Choice(GIVEUP, i, 0)], [], 0)
    ensures OpenReaches(c, x, Init(i), Matched(j, caps))
  {
    hide OpenRun, OpenReaches;
    var st := Running(|c|, j, [Choice(GIVEUP, i, 0)], caps);
    OpenOne(c, x, st);
    assert OpenStep(c, x, st) == Matched(j, caps);
    OpenTrans(c, x, Init(i), st, Matched(j, caps));
  }

  lemma FailEnds(c: Code, x: Subject, i: int)
    requires 0 <= i <= |x.s| && Yields(c, x, Init(i), Fail, |c|, [Choice(GIVEUP, i, 0)], [], 0)
    ensures OpenReaches(c, x, Init(i), NoMatch)
  {
    hide OpenRun, OpenReaches;
    var stack := [Choice(GIVEUP, i, 0)];
    var cf: seq<Capture> :| Keep(cf, [], 0) && OpenReaches(c, x, Init(i), Failing(stack, cf));
    var st1, st2 := Failing(stack, cf), Running(GIVEUP, i, [], []);
    OpenOne(c, x, st1);
    assert OpenStep(c, x, st1) == st2;
    OpenOne(c, x, st2);
    assert OpenStep(c, x, st2) == NoMatch;
    OpenTrans(c, x, Init(i), st1, st2);
    OpenTrans(c, x, Init(i), st2, NoMatch);
  }

  /** The run of a pattern that drops nothing is right, and never halts where the semantics gives no result. */
  lemma KeptRuns(p: Patt, x: Subject, i: int)
    requires Sane(p) && Compile(p).Pattern? && 0 <= i <= |x.s|
    ensures var r := Eval(Kept(p), x, i);
            if r.Diverge? then Forever(Compile(p).code, x, Init(i))
              else OpenReaches(Compile(p).code, x, Init(i), Final(r))
  {
    hide OpenRun, OpenReaches, Forever, EvalB, Flat, Agrees, Good, BlockOf;
    KeptCode(p);
    CompiledParts(Kept(p));
    var b, c := BlockOf(p), Compile(p).code;
    BlockRuns(b, c, x, i);
    Agree(b, Kept(p), x, i, []);
    var r := Eval(Kept(p), x, i);
    FinalAgrees(EvalB(b, x, i, []), r);
    if r.Ok? { OkEnds(c, x, i, r.j, r.caps); }
    if r.Fail? { FailEnds(c, x, i); }
  }

  /** The run of a pattern, whatever its references mean. */
  lemma OpenCorrect(p: Patt, x: Subject, i: int)
    requires Sane(p) && Compile(p).Pattern? && 0 <= i <= |x.s|
    ensures !Eval(p, x, i).Diverge? ==> OpenReaches(Compile(p).code, x, Init(i), Final(Eval(p, x, i)))
  {
    hide OpenReaches, Forever, Compile, Eval;
    KeptRuns(p, x, i);
    KeptEval(p, x, i);
  }

  /**
    Compiler correctness.  The machine, started on the code of p at position i, halts with the
    end and the captures that the grammar semantics gives, or without a match exactly when
    the semantics gives none.
   */
  lemma CompilerCorrect(p: Patt, x: seq<Byte>, i: int)
    requires Sane(p) && Compile(p).Pattern? && 0 <= i <= |x|
    ensures !Eval(p, Bare(x), i).Diverge? ==> Reaches(Compile(p).code, x, Init(i), Final(Eval(p, Bare(x), i)))
  {
    hide OpenReaches, Reaches, Compile, Eval;
    OpenCorrect(p, Bare(x), i);
    BareReaches(Compile(p).code, x, Init(i), Final(Eval(p, Bare(x), i)));
  }

  /** Does the run of code c from position i ever halt? */
  ghost predicate OpenHalts(c: Code, x: Subject, i: int) {
    exists h: State :: h.Halted() && OpenReaches(c, x, Init(i), h)
  }

  ghost predicate Halts(c: Code, x: seq<Byte>, i: int) {
    exists h: State :: h.Halted() && Reaches(c, x, Init(i), h)
  }

  lemma BareHalts(c: Code, x: seq<Byte>, i: int)
    ensures OpenHalts(c, Bare(x), i) <==> Halts(c, x, i)
  {
    hide OpenReaches, Reaches;
    if OpenHalts(c, Bare(x), i) {
      var h: State :| h.Halted() && OpenReaches(c, Bare(x), Init(i), h);
      BareReaches(c, x, Init(i), h);
    }
    if Halts(c, x, i) {
      var h: State :| h.Halted() && Reaches(c, x, Init(i), h);
      BareReaches(c, x, Init(i), h);
    }
  }

  /**
    When a run halts: exactly where the semantics of what the builders keep of p gives a
    result.  Where they keep all of p, that is exactly where p has a result.
   */
  lemma HaltsExactly(p: Patt, x: seq<Byte>, i: int)
    requires Sane(p) && Compile(p).Pattern? && 0 <= i <= |x|
    ensures Halts(Compile(p).code, x, i) <==> !Eval(Kept(p), Bare(x), i).Diverge?
    ensures Lossless(p) ==> (Halts(Compile(p).code, x, i) <==> !Eval(p, Bare(x), i).Diverge?)
  {
    hide Compile, Eval, Halts, OpenHalts;
    OpenHaltsExactly(p, Bare(x), i);
    BareHalts(Compile(p).code, x, i);
  }

  lemma OpenHaltsExactly(p: Patt, x: Subject, i: int)
    requires Sane(p) && Compile(p).Pattern? && 0 <= i <= |x.s|
    ensures OpenHalts(Compile(p).code, x, i) <==> !Eval(Kept(p), x, i).Diverge?
    ensures Lossless(p) ==> (OpenHalts(Compile(p).code, x, i) <==> !Eval(p, x, i).Diverge?)
  {
    hide Compile, Eval, OpenRun;
    KeptRuns(p, x, i);
    if Lossless(p) { KeptAll(p); }
    NeverHalts(Compile(p).code, x, i);
  }

  lemma NeverHalts(c: Code, x: Subject, i: int)
    ensures Forever(c, x, Init(i)) ==> !OpenHalts(c, x, i)
  {
  }

  lemma FinalAgrees(rb: Res, rp: Res)
    requires Agrees(rb, rp, [])
    ensures rb == rp
  {
    if rp.Ok? { assert [] + rp.caps == rp.caps; }
  }

  lemma BlockRuns(b: Block, c: Code, x: Subject, i: int)
    requires Good(b) && Flat(b) == c && 0 <= i <= |x.s|
    ensures Yields(c, x, Init(i), EvalB(b, x, i, []), |c|, [Choice(GIVEUP, i, 0)], [], 0)
  {
    hide OpenRun, OpenReaches, EvalB, Flat, Yields, Good;
    GoodOf(b);
    BackedMore(b, false);
    SlidesRefl(c, x, |c|);
    Exec(c, x, 0, b, 0, 0, [Choice(GIVEUP, i, 0)], i, [], 0);
  }

  // ---- the loop check ----

  ghost predicate Total(p: Patt) {
    forall x: Subject, i: int | 0 <= i <= |x.s| && CallsConsume(x) :: !Eval(p, x, i).Diverge?
  }

  /** Every match of p consumes a byte. */
  ghost predicate Consuming(p: Patt) {
    forall x: Subject, i: int | 0 <= i <= |x.s| && CallsConsume(x) :: Eval(p, x, i).Ok? ==> Eval(p, x, i).j > i
  }

  /** No reference to a rule. */
  predicate Closed(p: Patt) {
    match p
    case Seq(a, b) => Closed(a) && Closed(b)
    case Alt(a, b) => Closed(a) && Closed(b)
    case Diff(a, b) => Closed(a) && Closed(b)
    case Neg(a) => Closed(a)
    case AndP(a) => Closed(a)
    case Rept(a, _) => Closed(a)
    case Capt(_, _, a) => Closed(a)
    case NonTerm(_) => false
    case _ => true
  }

  /** In the code of every body of a loop, each IBack stands directly behind its own check. */
  predicate Plain(p: Patt) {
    match p
    case Seq(a, b) => Plain(a) && Plain(b)
    case Alt(a, b) => Plain(a) && Plain(b)
    case Diff(a, b) => Plain(a) && Plain(b)
    case Neg(a) => Plain(a)
    case AndP(a) => Plain(a)
    case Rept(a, n) => Plain(a) && (n >= 0 && Compile(a).Pattern? ==> NoStrayBack(Compile(a).code))
    case Capt(_, _, a) => Plain(a)
    case _ => true
  }

  lemma {:induction false} TimesTotal(a: Patt, n: nat, x: Subject, i: int)
    requires Total(a) && CallsConsume(x) && 0 <= i <= |x.s|
    ensures !EvalTimes(a, n, x, i).Diverge?
    decreases n
  {
    hide Eval;
    if n > 0 {
      var r := Eval(a, x, i);
      if r.Ok? { TimesTotal(a, n - 1, x, r.j); }
    }
  }

  lemma {:induction false} LoopTotal(a: Patt, x: Subject, i: int)
    requires Total(a) && CallsConsume(x) && Consuming(a) && 0 <= i <= |x.s|
    ensures !EvalLoop(a, x, i).Diverge?
    decreases |x.s| - i
  {
    hide Eval;
    var r := Eval(a, x, i);
    if r.Ok? { LoopTotal(a, x, r.j); }
  }

  lemma {:induction false} AtMostTotal(a: Patt, n: nat, x: Subject, i: int)
    requires Total(a) && CallsConsume(x) && 0 <= i <= |x.s|
    ensures !EvalAtMost(a, n, x, i).Diverge?
    decreases n
  {
    hide Eval;
    if n > 0 {
      var r := Eval(a, x, i);
      if r.Ok? { AtMostTotal(a, n - 1, x, r.j); }
    }
  }

  lemma ReptTotal(a: Patt, n: int)
    requires Total(a) && (n >= 0 ==> Consuming(a))
    ensures Total(Rept(a, n))
  {
    forall x: Subject, i: int | 0 <= i <= |x.s| && CallsConsume(x) ensures !Eval(Rept(a, n), x, i).Diverge? {
      if n < 0 {
        AtMostTotal(a, -n, x, i);
      } else {
        TimesTotal(a, n, x, i);
        var r := EvalTimes(a, n, x, i);
        if r.Ok? { LoopTotal(a, x, r.j); }
      }
    }
  }

  lemma StarOf(p: Patt, n: nat)
    requires Compile(Rept(p, n)).Pattern?
    ensures Compile(p).Pattern? && Compile(Rept(p, n)) == StarCode(Compile(p).code, n)
  {
    hide StarCode, AtMostCode;
  }

  /** The body of a loop that verify has accepted consumes. */
  lemma BodyConsumes(a: Patt, n: nat)
    requires Sane(a) && Total(a) && Compile(Rept(a, n)).Pattern? && NoStrayBack(Compile(a).code)
    ensures Consuming(a)
  {
    hide EvalB, Eval, Good, Nullable, Flat, StarCode, BlockOf, Shape, Backed, Balanced, Valid, Spine, Checked,
      NoStrayBack, NoFail, Compile;
    StarOf(a, n);
    KeptCode(a);
    CompiledParts(Kept(a));
    var b := BlockOf(a);
    GoodOf(b);
    VerifiedBody(b, n);
    if StartsWithBack(b) { NeverBack(b); }
    WholeSub(b);
    CheckedOf(Flat(b), 0, b, false);
    forall x: Subject, i: int | 0 <= i <= |x.s| && CallsConsume(x) ensures Eval(a, x, i).Ok? ==> Eval(a, x, i).j > i {
      KeptEval(a, x, i);
      Agree(b, Kept(a), x, i, []);
      NullableSound(b, x, i, []);
      if IsCharsetBlock(b) { CharsetEval(b, x, i, []); }
      if StartsWithCheck(b) && NoFail(b.k) { HeadConsumes(b, x, i, []); }
    }
  }

  lemma NeverBack(b: Block)
    requires Backed(b, false)
    ensures !StartsWithBack(b)
  {
  }

  lemma WholeSub(b: Block)
    ensures Sub(Flat(b), 0, Flat(b))
  {
  }

  lemma {:induction false} PlainTotal(p: Patt)
    requires Sane(p) && Closed(p) && Plain(p) && Compile(p).Pattern?
    ensures Total(p)
  {
    hide Consuming, Sane;
    SaneParts(p);
    match p
    case Seq(a, b) => PlainTotal(a); PlainTotal(b); JoinTotal(p);
    case Alt(a, b) => PlainTotal(a); PlainTotal(b); JoinTotal(p);
    case Diff(a, b) => PlainTotal(a); PlainTotal(b); JoinTotal(p);
    case Neg(a) => PlainTotal(a); OverTotal(p);
    case AndP(a) => PlainTotal(a); OverTotal(p);
    case Rept(a, n) => PlainTotal(a); if n >= 0 { BodyConsumes(a, n); } ReptTotal(a, n);
    case Capt(_, _, a) => PlainTotal(a); OverTotal(p);
    case _ =>
  }

  lemma JoinTotal(p: Patt)
    requires (p.Seq? || p.Alt? || p.Diff?) && Total(p.a) && Total(p.b)
    ensures Total(p)
  {
  }

  lemma OverTotal(p: Patt)
    requires (p.Neg? || p.AndP? || p.Capt?) && Total(p.a)
    ensures Total(p)
  {
  }

  lemma SaneParts(p: Patt)
    requires Sane(p)
    ensures p.Seq? || p.Alt? || p.Diff? ==> Sane(p.a) && Sane(p.b)
    ensures p.Neg? || p.AndP? || p.Rept? || p.Capt? ==> Sane(p.a)
  {
  }

  /**
    What the loop check promises: a pattern that it accepts never loops forever.  The
    semantics gives a result at every position, and the machine halts with it.
   */
  lemma AlwaysHalts(p: Patt, x: seq<Byte>, i: int)
    requires Sane(p) && Closed(p) && Plain(p) && Compile(p).Pattern? && 0 <= i <= |x|
    ensures !Eval(p, Bare(x), i).Diverge? && Reaches(Compile(p).code, x, Init(i), Final(Eval(p, Bare(x), i)))
  {
    hide Reaches;
    PlainTotal(p);
    CompilerCorrect(p, x, i);
  }

  /** `p:match(subject, i)` up to the values that its captures produce. */
  method MatchPattern(p: Patt, x: seq<Byte>, i: int) returns (r: Option<int>, caps: seq<Capture>)
    requires Sane(p) && Compile(p).Pattern? && 0 <= i <= |x| && !Eval(p, Bare(x), i).Diverge?
    ensures r.Some? ==> Eval(p, Bare(x), i) == Ok(r.value, caps)
    ensures r.None? ==> Eval(p, Bare(x), i) == Fail
  {
    CompilerCorrect(p, x, i);
    ghost var n: nat :| RunN(Compile(p).code, x, Init(i), n) == Final(Eval(p, Bare(x), i));
    r, caps := Match(Compile(p).code, x, i, n);
  }
}
