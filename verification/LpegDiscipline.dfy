/** Every run of a compiled pattern keeps the machine's stack in order, whether it halts or not. */
module LpegDiscipline {
  import opened LpegCode
  import opened LpegMachine
  import opened LpegPeg
  import opened LpegBlock
  import opened LpegExec
  import opened LpegBuild
  import opened LpegShape
  import opened LpegTypes
  import opened LpegTyping
  import opened LpegInPlace
  import opened LpegOptCaps
  import opened LpegUnion
  import opened LpegOperators
  import opened LpegRepeat
  import opened LpegCorrect

  /** The types of a pattern's words. */
  function PatternTypes(b: Block): Typing {
    Types(b, MAIN) + [Some(MAIN)]
  }

  lemma BlockFine(b: Block)
    requires Good(b)
    ensures var c := Flat(b);
            AllFine(c, PatternTypes(b), 0, |c|, 0, |c|) && |PatternTypes(b)| == |c| + 1
              && Has(PatternTypes(b), |c|, MAIN)
    ensures Has(PatternTypes(b), 0, MAIN)
  {
    hide Flat, Types, AllFine, Shape, Valid, Balanced, Backed, Spine;
    var c, h := Flat(b), PatternTypes(b);
    GoodOf(b);
    BackedMore(b, false);
    TypesLength(b, MAIN);
    assert h[..|c|] == Types(b, MAIN);
    assert In(h, 0, Types(b, MAIN));
    assert Sub(c, 0, Flat(b));
    PartHere(c, h, 0, b, MAIN, 0, 0, |c|);
    TypedBlock(c, h, 0, b, MAIN, 0, 0, 0, |c|);
  }

  lemma BlockTyped(b: Block)
    requires Good(b)
    ensures Typed(Flat(b), PatternTypes(b)) && Has(PatternTypes(b), 0, MAIN)
  {
    hide Good, Flat, PatternTypes;
    BlockFine(b);
    var c, h := Flat(b), PatternTypes(b);
    forall p | 0 <= p < |h| ensures WordOk(c, h, p) {
      if p < |c| { assert Fine(c, h, p, 0, |c|); }
    }
  }

  /**
    Stack discipline.  In every state that the machine reaches on the code of a pattern, from
    any position of any subject and however long the run, no assertion has failed, returns find
    calls, commits find choices, the end finds only the giveup entry, and the saved capture
    levels are in order.
   */
  lemma StackDiscipline(p: Patt, x: seq<Byte>, i: int)
    requires Compile(p).Pattern? && 0 <= i <= |x|
    ensures Disciplined(Compile(p).code, x, Init(i))
  {
    hide Good, Flat, PatternTypes, Typed, Disciplined, BlockOf, Compile;
    Laid(p);
    BlockTyped(BlockOf(p));
    TypedDiscipline(Compile(p).code, PatternTypes(BlockOf(p)), x, i);
  }

  // ---- jumps come to an end ----

  lemma {:induction false} SettledMore(c: Code, i: int, n: nat, m: nat)
    requires Settled(c, i, n) && n <= m
    ensures Settled(c, i, m)
    decreases n
  {
    if At(c, i).IJmp? { SettledMore(c, i + At(c, i).offset, n - 1, m - 1); }
  }

  lemma FineJump(c: Code, h: Typing, p: int, z: int, lo: int, hi: int, q: int)
    requires AllFine(c, h, p, z, lo, hi) && p <= q < z && 0 <= q < |c|
    ensures c[q].IJmp? ==>
            lo <= q + c[q].offset <= hi && c[q].offset != 0 && (c[q].offset < 0 ==> At(c, q + c[q].offset).ICheck?)
    ensures IsJmp(c[q]) ==> 0 <= q + c[q].offset <= |c|
  {
    assert Fine(c, h, q, lo, hi);
  }

  lemma {:induction false} FineSettled(c: Code, h: Typing, q: int)
    requires AllFine(c, h, 0, |c|, 0, |c|) && 0 <= q <= |c|
    ensures Settled(c, q, |c| - q)
    decreases |c| - q
  {
    hide AllFine;
    if At(c, q).IJmp? {
      FineJump(c, h, 0, |c|, 0, |c|, q);
      var q2 := q + c[q].offset;
      if c[q].offset > 0 {
        FineSettled(c, h, q2);
        SettledMore(c, q2, |c| - q2, |c| - q - 1);
      }
    }
  }

  lemma FineWhole(c: Code, h: Typing)
    requires AllFine(c, h, 0, |c|, 0, |c|)
    ensures Whole(c)
  {
    forall i | 0 <= i < |c| ensures i + Size(c[i]) <= |c| && forall j :: i < j < i + Size(c[i]) ==>
      c[j] == CharsetWord {
      assert Fine(c, h, i, 0, |c|);
      if h[i].Some? {
        forall j | i < j < i + Size(c[i]) ensures c[j] == CharsetWord { SubAt(c, i, Words(c[i]), j - i); }
      }
    }
  }

  /** In compiled code every chain of unconditional jumps ends, so that optimizejumps does. */
  lemma BuiltSettled(b: Block)
    requires Good(b)
    ensures Whole(Flat(b)) && AllSettled(Flat(b))
  {
    hide Good, Flat, PatternTypes, AllFine;
    var c, h := Flat(b), PatternTypes(b);
    BlockFine(b);
    FineWhole(c, h);
    forall i | 0 <= i < |c| && IsJmp(c[i]) ensures Settled(c, i + c[i].offset, |c|) {
      FineJump(c, h, 0, |c|, 0, |c|, i);
      var q := i + c[i].offset;
      FineSettled(c, h, q);
      SettledMore(c, q, |c| - q, |c|);
    }
  }

  // ---- the end of star_l ----

  /** The words that star_l writes for a body that is no charset. */
  function LoopCode(c: Code, n: nat): Code {
    if IsHeadFail(c) then Times(c, n) + AsTest(c, |c| + 1) + [IJmp(-|c|)]
    else Times(c, n) + [IChoice(1 + |c| + 1, 0)] + c + [IPartialCommit(-|c|)]
  }

  /**
    The two passes at the end of star_l, in place.  That `target` always returns is not asked of
    the caller: it holds of everything that the builders make.
   */
  method FinishLoop(a: array<Cell>, ghost p: Patt, ghost n: nat)
    requires Compile(Rept(p, n)).Pattern? && !ToCharset(Compile(p).code).IsCharset?
    requires IsPattern(a) && CodeOf(a) == LoopCode(Compile(p).code, n)
    modifies a
    ensures IsPattern(a) && CodeOf(a) == Compile(Rept(p, n)).code
  {
    ghost var b := LoopLaid(p, n);
    LoopPasses(a, b);
  }

  /** The block behind the words of a loop, before the passes. */
  lemma LoopLaid(p: Patt, n: nat) returns (b: Block)
    requires Compile(Rept(p, n)).Pattern? && !ToCharset(Compile(p).code).IsCharset?
    ensures Good(b) && Flat(b) == LoopCode(Compile(p).code, n)
    ensures OptJumps(OptCaps(Flat(b))) == Compile(Rept(p, n)).code
  {
    hide Good, Flat, BlockOf, Copies, LoopOf, OptJumps, OptCaps, VRun, NoFail, Times, Compile;
    LpegCorrect.StarOf(p, n);
    Laid(p);
    var b1 := BlockOf(p);
    b := Copies(b1, n, LoopOf(b1));
    StarParts(b1, n);
    StartOf(b1);
  }

  method LoopPasses(a: array<Cell>, ghost b: Block)
    requires IsPattern(a) && Good(b) && Flat(b) == CodeOf(a)
    modifies a
    ensures IsPattern(a) && CodeOf(a) == OptJumps(OptCaps(old(CodeOf(a))))
  {
    hide Good, Flat, OptJumps, OptCaps, Whole, AllSettled, MoveCaps;
    BuiltSettled(b);
    MoveIs(b);
    BuiltSettled(MoveAll(b));
    OptimizeCaptures(a);
    OptimizeJumps(a);
  }
}
