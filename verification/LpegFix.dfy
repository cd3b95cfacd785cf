/**
  Fixing a grammar, in the source's own form: the loop of verify with a table of rules, the
  loop of checkrule around it, and fix_l, which lays the rules out and links them in place.
 */
module LpegFix {
  import opened LpegCode
  import opened LpegMachine
  import opened LpegPeg
  import opened LpegBlock
  import opened LpegExec
  import opened LpegBuild
  import opened LpegInPlace
  import opened LpegLink
  import opened LpegGrammar
  import opened LpegCheckrule
  import opened LpegMeaning
  import LpegCorrect

  // ---- verify ----

  /** The search for a pending call to word p + 1. */
  method IsPending(back: seq<VEntry>, w: int) returns (found: bool)
    ensures found == Pending(back, w)
  {
    var i := 0;
    while i < |back|
      invariant 0 <= i <= |back| && VEntry(true, w) !in back[..i]
    {
      if back[i].isCall && back[i].p == w { return true; }
      i := i + 1;
    }
    assert back[..i] == back;
    return false;
  }

  /** A call that ends makes another turn, and no assertion fails in it. */
  lemma NotStuck(g: Verifying, st: Scan, n: nat)
    requires AllCompile(g.rules) && st.Going? && Done(After(g, st, n))
    ensures n > 0 && !Next(g, st).BadPattern? && After(g, st, n) == After(g, Next(g, st), n - 1)
  {
    hide AllCompile, VTurn;
    if n > 0 {
      AfterFirst(g, st, n - 1);
      if Next(g, st).BadPattern? { Stopped(g.c, g.rules, g.e, Next(g, st), n - 1); }
    }
  }

  /** A call that comes to an end has no other answer. */
  lemma AnswerIs(g: Verifying, r: Scan, left: nat, n: nat)
    requires AllCompile(g.rules) && Done(r) && After(g, r, left) == After(g, Going(g.p0, []), n)
    ensures forall b :: r == Finished(b) <==> Verifies(g.c, g.rules, g.p0, g.e, b)
  {
    hide AllCompile, VTurn, VTurns;
    Stopped(g.c, g.rules, g.e, r, left);
    forall b ensures r == Finished(b) <==> Verifies(g.c, g.rules, g.p0, g.e, b) {
      if Verifies(g.c, g.rules, g.p0, g.e, b) {
        var m: nat :| VTurns(g.c, g.rules, g.e, Going(g.p0, []), m) == Finished(b);
        SameAnswer(g, r, n, Finished(b), m);
      }
    }
  }

  lemma SameAnswer(g: Verifying, r: Scan, n: nat, r2: Scan, m: nat)
    requires AllCompile(g.rules) && Done(r) && After(g, Going(g.p0, []), n) == r && Done(r2)
             && After(g, Going(g.p0, []), m) == r2
    ensures r == r2
  {
    hide AllCompile, VTurn;
    if n <= m {
      AfterMore(g, Going(g.p0, []), n, m - n);
      Stopped(g.c, g.rules, g.e, r, m - n);
    } else {
      AfterMore(g, Going(g.p0, []), m, n - m);
      Stopped(g.c, g.rules, g.e, r2, n - m);
    }
  }

  /**
    verify, on the calls that checkrule makes.  Its assertions hold, and it ends: with an answer, or
    with one of the three errors that it raises.
   */
  method Verify(c: Code, rules: seq<Rule>, p0: int, e: int) returns (r: Scan)
    requires Made(Verifying(c, rules, p0, e))
    ensures Done(r) && AllCompile(rules)
    ensures forall b :: r == Finished(b) <==> Verifies(c, rules, p0, e, b)
  {
    hide Made, AllCompile, Verifies, After, Position, VTurns;
    ghost var g := Verifying(c, rules, p0, e);
    CallEnds(g);
    var p, back := p0, [];
    ghost var n: nat :| Done(After(g, Going(p0, []), n));
    ghost var left := n;
    while p != e
      invariant AllCompile(rules) && After(g, Going(p, back), left) == After(g, Going(p0, []), n)
      decreases left
    {
      NotStuck(g, Going(p, back), left);
      left := left - 1;
      var i := At(c, p);
      var failed := false;
      ghost var st := Next(g, Going(p, back));
      if i.IRet? {
        assert back != [];
        p, back := Top(back).p, Rest(back);
      } else if i.IChoice? {
        if |back| >= MAX_BACK_VER { AnswerIs(g, TooMany, left, n); return TooMany; }
        p, back := p + 1, back + [VEntry(false, p + i.offset)];
      } else if i.ICall? {
        assert !At(c, p + 1).IRet?;
        if |back| >= MAX_BACK_VER { AnswerIs(g, TooMany, left, n); return TooMany; }
        p, back := p + i.offset, back + [VEntry(true, p + 1)];
      } else if i.IOpenCall? {
        var found := IsPending(back, p + 1);
        if found { AnswerIs(g, LeftRecursive, left, n); return LeftRecursive; }
        if |back| >= MAX_BACK_VER { AnswerIs(g, TooMany, left, n); return TooMany; }
        if Position(rules, i.key) == 0 { AnswerIs(g, Undefined, left, n); return Undefined; }
        p, back := Position(rules, i.key), back + [VEntry(true, p + 1)];
      } else if i.IBackCommit? || i.ICommit? {
        assert back != [] && i.offset > 0;
        p, back := p + i.offset, Rest(back);
      } else if i.IPartialCommit? {
        assert back != [];
        if i.offset > 0 { p := p + i.offset; } else { p, back := p + 1, Rest(back); }
      } else if i.IBack? {
        if i.n == 1 && IsFixCheck(At(c, p + 1)) {
          p := p + 1 + Size(At(c, p + 1));
        } else {
          assert At(c, p - 1).IChoice? && back != [];
          back, p := Rest(back), p + At(c, p - 1).offset;
          assert At(c, p - 1).IFail?;
        }
      } else if i.ICheck? {
        if At(c, p + CheckSize(i.ck)).IBack? {
          p := p + CheckSize(i.ck) + 1;
        } else if i.offset == 0 {
          failed := true;
        } else {
          p := p + i.offset;
        }
      } else if i.IJmp? {
        p := p + i.offset;
      } else if i.IFailTwice? {
        failed := true;
      } else if i.IFail? {
        if At(c, p - 1).IBackCommit? { p := p + 1; } else { failed := true; }
      } else {
        assert i.ISpan? || i.ICapture?;
        p := p + Size(i);
      }
      if failed {
        while back != [] && Top(back).isCall
          invariant Backtracked(back) == st
        {
          back := Rest(back);
        }
        if back == [] { AnswerIs(g, Finished(true), left, n); return Finished(true); }
        p, back := Top(back).p, Rest(back);
      }
    }
    NotStuck(g, Going(p, back), left);
    assert back == [];
    AnswerIs(g, Finished(false), left - 1, n);
    return Finished(false);
  }

  // ---- checkrule ----

  /** checkrule: a loop that holds an open call must consume, and the rule must not be left recursive. */
  method CheckRule(c: Code, rules: seq<Rule>, k: nat, ghost first: nat) returns (ok: bool)
    requires AllCompile(rules) && first < |rules| && k < |rules| && c == GrammarCode(rules, first)
    ensures ok <==> RuleChecked(c, rules, k)
  {
    hide AllCompile, GrammarCode, Verifies, Made, Start, LoopsChecked, EndOf, RuleChecked;
    var from, to := Start(rules, k), Start(rules, k + 1);
    RulePlaced(rules, first, k);
    RuleParts(c, rules, k);
    var i: int, open: int := from, 0;
    while i < to
      invariant from <= i && LoopsChecked(c, rules, from, to, 0) == LoopsChecked(c, rules, i, to, open)
    {
      LoopsStep(c, rules, i, to, open);
      var w := At(c, i);
      if w.IPartialCommit? && w.offset < 0 {
        if i + w.offset <= open {
          LoopCalled(rules, first, k, i);
          var r := Verify(c, rules, i + w.offset, i);
          if r != Finished(true) { return false; }
        }
        i := i + 1;
      } else {
        if w.IOpenCall? { open := i; }
        i := i + Size(w);
      }
    }
    LoopsStep(c, rules, i, to, open);
    RuleCalled(rules, first, k);
    var r := Verify(c, rules, from, to - 1);
    ok := r.Finished?;
  }

  lemma RuleParts(c: Code, rules: seq<Rule>, k: nat)
    requires AllCompile(rules) && k < |rules|
    ensures var from, to := Start(rules, k), Start(rules, k + 1);
            RuleChecked(c, rules, k) <==>
            LoopsChecked(c, rules, from, to, 0)
            && (Verifies(c, rules, from, to - 1, true) || Verifies(c, rules, from, to - 1, false))
  {
    hide AllCompile, Verifies, LoopsChecked, Start;
  }

  lemma LoopsStep(c: Code, rules: seq<Rule>, i: int, to: int, open: int)
    requires AllCompile(rules)
    ensures i >= to ==> LoopsChecked(c, rules, i, to, open)
    ensures i < to ==>
              var w := At(c, i);
              LoopsChecked(c, rules, i, to, open) ==
              if w.IPartialCommit? && w.offset < 0 then
                (i + w.offset <= open ==> Verifies(c, rules, i + w.offset, i, true))
                  && LoopsChecked(c, rules, i + 1, to, open)
              else LoopsChecked(c, rules, i + Size(w), to, if w.IOpenCall? then i else open)
  {
    hide AllCompile, Verifies;
  }

  // ---- fix_l ----

  lemma NoBodies(rules: seq<Rule>)
    requires AllCompile(rules)
    ensures Start(rules, 0) == 2 && Bodies(rules, 0) == [] && Start(rules, 0) <= Total(rules)
  {
    StartBound(rules, 0);
  }

  lemma {:induction false} StartBound(rules: seq<Rule>, k: nat)
    requires AllCompile(rules) && k <= |rules|
    ensures Start(rules, k) <= Total(rules)
    decreases |rules| - k
  {
    if k < |rules| {
      StartBound(rules, k + 1);
      assert Start(rules, k + 1) == Start(rules, k) + |RuleCode(rules, k)| + 1;
    }
  }

  lemma BodyAdded(s: Code, p: nat, done: Code, f: Code, total: nat)
    requires 2 <= p && p + |f| + 1 <= total < |s| && s[2..p] == done && s[p..p + |f| + 1] == f + [IRet]
    ensures s[2..p + |f| + 1] == done + f + [IRet]
  {
    assert s[2..p + |f| + 1] == s[2..p] + s[p..p + |f| + 1];
  }

  lemma StartNext(rules: seq<Rule>, k: nat)
    requires AllCompile(rules) && k < |rules|
    ensures Start(rules, k + 1) == Start(rules, k) + |RuleCode(rules, k)| + 1 <= Total(rules)
    ensures Bodies(rules, k + 1) == Bodies(rules, k) + RuleCode(rules, k) + [IRet]
  {
    StartBound(rules, k + 1);
  }

  /** addpatt */
  method CopyWords(a: array<Cell>, p: nat, f: Code)
    requires p + |f| <= a.Length
    modifies a
    ensures a[..] == old(a[..p]) + f + old(a[p + |f|..])
  {
    var i := 0;
    while i < |f|
      invariant 0 <= i <= |f|
      invariant forall j :: 0 <= j < a.Length && !(p <= j < p + i) ==> a[j] == old(a[j])
      invariant forall j :: 0 <= j < i ==> a[p + j] == f[j]
    {
      a[p + i] := f[i];
      i := i + 1;
    }
    Copied(old(a[..]), a[..], p, f);
  }

  lemma Copied(was: Code, s: Code, p: nat, f: Code)
    requires |s| == |was| && p + |f| <= |s| && forall j :: 0 <= j < |s| && !(p <= j < p + |f|) ==> s[j] == was[j]
    requires forall j :: 0 <= j < |f| ==> s[p + j] == f[j]
    ensures s == was[..p] + f + was[p + |f|..]
  {
  }

  /** Copies the rules, each with its return, behind the call of the initial rule and the jump to the end. */
  method LayRules(rules: seq<Rule>, first: nat) returns (a: array<Cell>)
    requires AllCompile(rules) && first < |rules|
    ensures fresh(a) && IsPattern(a) && CodeOf(a) == GrammarCode(rules, first) && a.Length == Total(rules) + 1
  {
    hide AllCompile, Start, RuleCode, GrammarCode, Bodies;
    var total := Total(rules);
    a := new Cell[total + 1](_ => IEnd);
    var k, p := 0, 2;
    NoBodies(rules);
    while k < |rules|
      invariant 0 <= k <= |rules| && p == Start(rules, k) <= total && a.Length == total + 1 && fresh(a)
      invariant a[2..p] == Bodies(rules, k) && a[total] == IEnd
    {
      StartNext(rules, k);
      CopyWords(a, p, RuleCode(rules, k) + [IRet]);
      BodyAdded(a[..], p, Bodies(rules, k), RuleCode(rules, k), total);
      p := p + |RuleCode(rules, k)| + 1;
      k := k + 1;
    }
    a[0], a[1] := ICall(Start(rules, first)), IJmp(total - 1);
    WholeGrammar(a[..], rules, first);
    LaidPattern(rules, first);
  }

  lemma WholeGrammar(s: Code, rules: seq<Rule>, first: nat)
    requires AllCompile(rules) && first < |rules| && |s| == Total(rules) + 1
    requires s[0] == ICall(Start(rules, first)) && s[1] == IJmp(Total(rules) - 1)
    requires s[2..Total(rules)] == Bodies(rules, |rules|)
    ensures s[..Total(rules)] == GrammarCode(rules, first)
  {
    hide AllCompile, Bodies;
    assert s[..Total(rules)] == [s[0], s[1]] + s[2..Total(rules)];
  }

  /** Are the rules patterns? */
  method ArePatterns(rules: seq<Rule>) returns (ok: bool)
    ensures ok <==> AllCompile(rules)
  {
    hide Compile;
    var k := 0;
    while k < |rules|
      invariant 0 <= k <= |rules| && forall j :: 0 <= j < k ==> Compile(rules[j].patt).Pattern?
    {
      if !Compile(rules[k].patt).Pattern? { return false; }
      k := k + 1;
    }
    return true;
  }

  /** Does every open call name a rule? */
  method AreDefined(c: Code, rules: seq<Rule>) returns (ok: bool)
    requires AllCompile(rules)
    ensures ok <==> forall i :: 0 <= i < |c| && c[i].IOpenCall? ==> Position(rules, c[i].key) != 0
  {
    hide AllCompile, Position;
    var i := 0;
    while i < |c|
      invariant 0 <= i <= |c| && forall j :: 0 <= j < i && c[j].IOpenCall? ==> Position(rules, c[j].key) != 0
    {
      if c[i].IOpenCall? && Position(rules, c[i].key) == 0 { return false; }
      i := i + 1;
    }
    return true;
  }

  /** fix_l: lays the rules out, checks them, and links them in place; None stands for the error it raises. */
  method FixGrammar(rules: seq<Rule>, first: nat) returns (r: Option<array<Cell>>)
    ensures r.Some? <==> Accepted(rules, first)
    ensures r.Some? ==> fresh(r.value) && IsPattern(r.value) && CodeOf(r.value) == Fixed(rules, first)
  {
    hide AllCompile, Start, GrammarCode, RuleOf, Linked, OptJumps, CallsSettled, AllSettled, Whole, RuleChecked,
      Position;
    var ok := ArePatterns(rules);
    if !ok || first >= |rules| || Total(rules) >= MAX_PATT_SIZE - 1 { return None; }
    var a := LayRules(rules, first);
    ghost var c := CodeOf(a);
    var k := 0;
    while k < |rules|
      invariant 0 <= k <= |rules| && CodeOf(a) == c && IsPattern(a) && forall j :: 0 <= j < k ==>
                RuleChecked(c, rules, j)
    {
      ok := CheckRule(CodeOf(a), rules, k, first);
      if !ok { return None; }
      k := k + 1;
    }
    ok := AreDefined(CodeOf(a), rules);
    if !ok { return None; }
    GrammarWhole(rules, first);
    AcceptedSettled(rules, first);
    LinkGrammar(a, RuleOf(rules));
    return Some(a);
  }

  /** `grammar:match(s, i)`, up to the values that its captures produce; None stands for an error of fix_l. */
  method MatchGrammar(rules: seq<Rule>, first: nat, s: seq<Byte>, i: int) returns (ok: bool, end: Option<int>,
      caps: seq<Capture>)
    requires SaneRules(rules) && 0 <= i <= |s|
    requires Accepted(rules, first) ==> exists r: Res :: Gives(rules, first, s, i, r)
    ensures ok <==> Accepted(rules, first)
    ensures ok ==> Gives(rules, first, s, i, if end.Some? then Ok(end.value, caps) else Fail)
  {
    hide Accepted, SaneRules, Gives, Fixed, AllCompile;
    var code := FixGrammar(rules, first);
    ok, end, caps := code.Some?, None, [];
    if ok {
      AcceptedParts(rules, first);
      ghost var r: Res :| Gives(rules, first, s, i, r);
      FinalHalted(r);
      FixedCorrect(rules, first, s, i, LpegCorrect.Final(r));
      ghost var n: nat :| RunN(CodeOf(code.value), s, Init(i), n) == LpegCorrect.Final(r);
      end, caps := Match(CodeOf(code.value), s, i, n);
      GivesResult(rules, first, s, i, r);
    }
  }

  lemma GivesResult(rules: seq<Rule>, first: nat, s: seq<Byte>, i: int, r: Res)
    requires first < |rules| && 0 <= i <= |s| && Gives(rules, first, s, i, r)
    ensures !r.Diverge?
  {
  }
}
