/**
  What the checks of a grammar let through: a rule that calls itself for ever, and a loop whose exit
  has been moved.
 */
module LpegRecursion {
  import opened LpegCode
  import opened LpegMachine
  import opened LpegPeg
  import opened LpegBuild
  import opened LpegCorrect
  import opened LpegLimits
  import opened LpegInPlace
  import opened LpegGrammar
  import opened LpegMeaning

  // ---- left recursion behind an and-predicate ----

  /** A <- #'ab' / A */
  const LEFT: seq<Rule> := [Rule(1, Alt(AndP(Str([A, B])), NonTerm(1)))]

  const LEFT_BODY: Code :=
    [IChoice(7, 0), IChoice(4, 0), ICheck(Char(A), 0), ICheck(Char(B), 0), IBackCommit(2), IFail, ICommit(2),
      IOpenCall(1)]

  lemma LeftBody()
    ensures Compile(LEFT[0].patt) == Pattern(LEFT_BODY) && Compile(AndP(Str([A, B]))).Pattern?
            && FirstPart(Compile(AndP(Str([A, B]))).code) == 0
  {
    UncheckedParts();
    var c := [ICheck(Char(A), 0), ICheck(Char(B), 0)];
    var c1 := [IChoice(4, 0)] + c + [IBackCommit(2), IFail];
    assert AndCode(c) == Pattern(c1);
    assert Compile(AndP(Str([A, B]))) == Pattern(c1);
    assert FirstPart(c1) == 0;
    LeftUnion(c1);
  }

  lemma LeftUnion(c1: Code)
    requires c1 == [IChoice(4, 0), ICheck(Char(A), 0), ICheck(Char(B), 0), IBackCommit(2), IFail]
    ensures UnionCode(c1, [IOpenCall(1)]) == Pattern(LEFT_BODY)
  {
    var r := [IChoice(1 + |c1| + 1, 0)] + c1 + [ICommit(2)] + [IOpenCall(1)];
    assert r == LEFT_BODY;
    assert FirstPart(c1) == 0;
    assert BasicUnion(c1, [IOpenCall(1)]) == OptChoice(r) == r;
  }

  lemma LeftCode()
    ensures AllCompile(LEFT) && GrammarCode(LEFT, 0) == [ICall(2), IJmp(10)] + LEFT_BODY + [IRet]
    ensures Start(LEFT, 0) == 2 && EndOf(LEFT, 0) == 10 && Start(LEFT, 1) == 11
  {
    hide Compile;
    LeftBody();
    assert RuleCode(LEFT, 0) == LEFT_BODY;
    assert Bodies(LEFT, 0) == [];
    assert Bodies(LEFT, 1) == [] + LEFT_BODY + [IRet];
    assert Start(LEFT, 1) == 11;
  }

  /** verify takes the predicate to succeed and never looks at the call. */
  lemma LeftVerified()
    requires AllCompile(LEFT)
    ensures Verifies([ICall(2), IJmp(10)] + LEFT_BODY + [IRet], LEFT, 2, 10, false)
  {
    hide AllCompile, Position;
    var c := [ICall(2), IJmp(10)] + LEFT_BODY + [IRet];
    var e1, e2 := VEntry(false, 9), VEntry(false, 7);
    LeftTurns(c);
    assert VTurns(c, LEFT, 10, Going(2, []), 7) == Finished(false) by {
      hide VTurn;
      assert VTurns(c, LEFT, 10, Finished(false), 0) == Finished(false);
      assert VTurns(c, LEFT, 10, Going(10, []), 1) == Finished(false);
      assert VTurns(c, LEFT, 10, Going(8, [e1]), 2) == Finished(false);
      assert VTurns(c, LEFT, 10, Going(7, [e1]), 3) == Finished(false);
      assert VTurns(c, LEFT, 10, Going(4, [e1, e2]), 4) == Finished(false);
      assert VTurns(c, LEFT, 10, Going(3, [e1]), 5) == Finished(false);
      assert VTurns(c, LEFT, 10, Going(2, []), 6) == Finished(false);
      assert VTurns(c, LEFT, 10, Finished(false), 1) == Finished(false);
      Stopped(c, LEFT, 10, Finished(false), 1);
    }
  }

  lemma LeftTurns(c: Code)
    requires AllCompile(LEFT) && c == [ICall(2), IJmp(10)] + LEFT_BODY + [IRet]
    ensures var e1, e2 := VEntry(false, 9), VEntry(false, 7);
            && VTurn(c, LEFT, 10, Going(2, [])) == Going(3, [e1])
            && VTurn(c, LEFT, 10, Going(3, [e1])) == Going(4, [e1, e2])
            && VTurn(c, LEFT, 10, Going(4, [e1, e2])) == Going(7, [e1])
            && VTurn(c, LEFT, 10, Going(7, [e1])) == Going(8, [e1])
            && VTurn(c, LEFT, 10, Going(8, [e1])) == Going(10, [])
            && VTurn(c, LEFT, 10, Going(10, [])) == Finished(false)
  {
    hide AllCompile, Position;
    var e1, e2 := VEntry(false, 9), VEntry(false, 7);
    assert [e1, e2][..1] == [e1];
    assert Backtracked([e1, e2]) == Going(7, [e1]);
  }

  lemma {:induction false} NoLoops(c: Code, rules: seq<Rule>, i: int, to: int, open: int)
    requires AllCompile(rules) && forall j :: i <= j < to ==> !At(c, j).IPartialCommit?
    ensures LoopsChecked(c, rules, i, to, open)
    decreases if i < to then to - i else 0
  {
    hide AllCompile;
    if i < to { NoLoops(c, rules, i + Size(At(c, i)), to, if At(c, i).IOpenCall? then i else open); }
  }

  lemma LeftAccepted()
    ensures Accepted(LEFT, 0)
  {
    hide AllCompile, Verifies, LoopsChecked, GrammarCode, Start, EndOf;
    LeftCode();
    LeftVerified();
    var c := GrammarCode(LEFT, 0);
    NoLoops(c, LEFT, 2, 11, 0);
    assert RuleChecked(c, LEFT, 0);
    forall i | 0 <= i < |c| && c[i].IOpenCall? ensures Position(LEFT, c[i].key) != 0 {
      assert c[i].key == 1 && Find(LEFT, 1, 0) == 0;
    }
  }

  lemma LeftSane()
    ensures SaneRules(LEFT) && Lossless(LEFT[0].patt)
  {
    hide Compile, Sane, AllCompile;
    LeftBody();
    LeftTame();
    TameSane(LEFT[0].patt);
    LeftCode();
  }

  lemma LeftTame()
    requires Compile(AndP(Str([A, B]))).Pattern? && FirstPart(Compile(AndP(Str([A, B]))).code) == 0
    ensures Tame(LEFT[0].patt) && Lossless(LEFT[0].patt)
  {
    hide Compile;
    assert Tame(Str([A, B])) && Tame(AndP(Str([A, B]))) && Tame(NonTerm(1));
    assert Lossless(Str([A, B])) && Lossless(AndP(Str([A, B]))) && Lossless(NonTerm(1));
  }

  /** However deep calls may nest, the rule has no result on the empty string. */
  lemma {:induction false} LeftDiverges(n: nat)
    ensures Eval(LEFT[0].patt, Within(LEFT, [], n), 0).Diverge?
    decreases n
  {
    var x := Within(LEFT, [], n);
    assert Eval(Str([A, B]), x, 0) == Fail;
    assert Eval(AndP(Str([A, B])), x, 0) == Fail;
    assert Find(LEFT, 1, 0) == 0;
    ReferredIs(LEFT, [], n, 1, 0);
    CalledIs(LEFT, [], n, 1, 0);
    if n > 0 { LeftDiverges(n - 1); }
    assert Eval(NonTerm(1), x, 0).Diverge?;
  }

  /**
    The rule is left recursive behind a predicate; the check accepts it, and its run on the empty
    string never ends.
   */
  lemma MissedRecursion()
    ensures Accepted(LEFT, 0) && AllCompile(LEFT) && !Halts(Fixed(LEFT, 0), [], 0)
  {
    hide Accepted, AllCompile, Fixed, SaneRules, Reaches, KeptRules, Gives;
    LeftAccepted();
    LeftSane();
    LeftKept();
    SaneCompile(LEFT);
    forall h: State | h.Halted() ensures !Reaches(Fixed(LEFT, 0), [], Init(0), h) {
      FixedCorrect(LEFT, 0, [], 0, h);
      forall r: Res ensures !Gives(LEFT, 0, [], 0, r) { NothingGiven(r); }
    }
  }

  lemma LeftKept()
    requires Lossless(LEFT[0].patt)
    ensures KeptRules(LEFT) == LEFT
  {
    KeptAll(LEFT[0].patt);
  }

  lemma NothingGiven(r: Res)
    ensures !Gives(LEFT, 0, [], 0, r)
  {
    hide Eval, Within;
    forall n: nat ensures Eval(LEFT[0].patt, Within(LEFT, [], n), 0).Diverge? { LeftDiverges(n); }
  }

  // ---- a loop whose exit has been moved ----

  /** The pass moves an exit exactly when an unconditional jump stands there, if the jumps from there come to an end. */
  lemma ExitMoves(c: Code, i: int, n: nat)
    requires 0 <= i < |c| && IsJmp(c[i]) && Settled(c, i + c[i].offset, n)
    ensures OptJumps(c)[i].offset == c[i].offset <==> !At(c, i + c[i].offset).IJmp?
  {
    hide Settled;
    var z := i + c[i].offset;
    if At(c, z).IJmp? && Target(c, z, |c|) == z {
      var k := TargetPath(c, z + At(c, z).offset, |c| - 1);
      assert Path(c, z, k + 1, z);
      NoCircle(c, z, k + 1, n);
    }
  }

  /** ('a' * V(1)^0 + 'b')^0 */
  const MOVED := Rept(Alt(Seq(Str([A]), Rept(NonTerm(1), 0)), Str([B])), 0)

  const MOVED_BODY: Code :=
    [ICheck(Char(A), 5), IChoice(3, 0), IOpenCall(1), IPartialCommit(-1), IJmp(2), ICheck(Char(B), 0)]

  lemma InnerLoop()
    ensures Compile(Rept(NonTerm(1), 0)) == Pattern([IChoice(3, 0), IOpenCall(1), IPartialCommit(-1)])
  {
    hide OptCapsFrom, OptJumps;
    var c := [IOpenCall(1)];
    var r := [IChoice(3, 0), IOpenCall(1), IPartialCommit(-1)];
    assert ToCharset(c) == NoInfo && !IsHeadFail(c);
    assert VRun(c, 0, []) == Consumes;
    NothingToMove(r, 0, 0);
    NothingToThread(r);
    assert Times(c, 0) + [IChoice(1 + |c| + 1, 0)] + c + [IPartialCommit(-|c|)] == r;
    assert Compile(Rept(NonTerm(1), 0)) == StarCode(c, 0);
  }

  lemma MovedBody()
    ensures Compile(MOVED.a) == Pattern(MOVED_BODY)
  {
    OneChar(A);
    OneChar(B);
    InnerLoop();
    var c1 := [ICheck(Char(A), 0), IChoice(3, 0), IOpenCall(1), IPartialCommit(-1)];
    var c2 := [ICheck(Char(B), 0)];
    MovedSeq(c1);
    MovedUnion(c1, c2);
    hide UnionCode;
    assert Compile(MOVED.a) == UnionCode(c1, c2);
  }

  lemma MovedSeq(c1: Code)
    requires Compile(Str([A])) == Pattern([ICheck(Char(A), 0)])
    requires Compile(Rept(NonTerm(1), 0)) == Pattern([IChoice(3, 0), IOpenCall(1), IPartialCommit(-1)])
    requires c1 == [ICheck(Char(A), 0), IChoice(3, 0), IOpenCall(1), IPartialCommit(-1)]
    ensures Compile(MOVED.a.a) == Pattern(c1)
  {
    hide OptCapsFrom;
    var f, g := [ICheck(Char(A), 0)], [IChoice(3, 0), IOpenCall(1), IPartialCommit(-1)];
    assert f + g == c1;
    NothingToMove(c1, 0, 0);
    assert Concat(f, g) == Pattern(c1);
  }

  lemma MovedUnion(c1: Code, c2: Code)
    requires c1 == [ICheck(Char(A), 0), IChoice(3, 0), IOpenCall(1), IPartialCommit(-1)] && c2 == [ICheck(Char(B), 0)]
    ensures UnionCode(c1, c2) == Pattern(MOVED_BODY)
  {
    assert FirstPart(c1) == 0;
    assert ToCharset(c1) == ValidStarts({A}) && ToCharset(c2) == IsCharset({B});
    assert {A} !! {B};
    assert AsTest(c1, 5) + [IJmp(2)] + c2 == MOVED_BODY;
    assert BasicUnion(c1, c2) == MOVED_BODY;
  }

  /**
    checkrule asserts that the choice in front of a loop leads right behind the loop.  It does not
    when the passes have moved it: here the loop ends in word 4, and the choice in word 2 leads to word 7.
   */
  lemma MovedExit()
    ensures Compile(MOVED).Pattern?
    ensures var c := Compile(MOVED).code;
            |c| == 8 && c[2] == IChoice(5, 0) && c[4] == IPartialCommit(-1) && 2 + c[2].offset != 4 + 1
  {
    hide OptCapsFrom, Compile;
    MovedBody();
    var c := MOVED_BODY;
    var r := [IChoice(8, 0)] + c + [IPartialCommit(-6)];
    assert r == [IChoice(8, 0), ICheck(Char(A), 5), IChoice(3, 0), IOpenCall(1), IPartialCommit(-1), IJmp(2),
      ICheck(Char(B), 0), IPartialCommit(-6)];
    assert ToCharset(c) == NoInfo && !IsHeadFail(c);
    MovedVerified();
    NothingToMove(r, 0, 0);
    assert Times(c, 0) + [IChoice(1 + |c| + 1, 0)] + c + [IPartialCommit(-|c|)] == r;
    assert Target(r, 5, 8) == Target(r, 7, 7) == 7;
    assert Target(r, 3, 8) == 3;
    MovedStar(c);
  }

  lemma MovedVerified()
    ensures VRun(MOVED_BODY, 0, []) == Consumes
  {
    assert VRun(MOVED_BODY, 5, []) == Consumes;
    assert VRun(MOVED_BODY, 0, []) == VGo(MOVED_BODY, 0, 5, []);
  }

  lemma MovedStar(c: Code)
    requires Compile(MOVED.a) == Pattern(c)
    ensures Compile(MOVED) == StarCode(c, 0)
  {
    hide StarCode;
  }
}
