/**
  What a grammar means, and that its code computes it.  A reference to a rule runs the rule;
  the meaning is the limit over how deep calls may nest, and the machine halts exactly where
  there is one, with that result.
 */
module LpegMeaning {
  import opened LpegCode
  import opened LpegMachine
  import opened LpegPeg
  import opened LpegOpen
  import opened LpegBlock
  import opened LpegExec
  import opened LpegRun
  import opened LpegBuild
  import opened LpegShape
  import opened LpegOperators
  import opened LpegRepeat
  import opened LpegCorrect
  import opened LpegLink
  import opened LpegGrammar

  // ---- the meaning of rules ----

  /** What a reference matches at position i when calls nest at most n deep. */
  function Called(rules: seq<Rule>, s: seq<Byte>, n: nat, key: int, i: int): (r: Res)
    ensures r.Ok? ==> i <= r.j <= |s|
    decreases n, 0
  {
    var k := Find(rules, key, 0);
    if n == 0 || k == |rules| || !(0 <= i <= |s|) then Diverge else Eval(rules[k].patt, Within(rules, s, n - 1), i)
  }

  /** The string s for patterns whose references run the rules. */
  function Within(rules: seq<Rule>, s: seq<Byte>, n: nat): (x: Subject)
    ensures x.s == s
    decreases n, 1
  {
    Subject(s, (key: int, i: int) => Called(rules, s, n, key, i))
  }

  /** The grammar gives the result r at position i. */
  ghost predicate Gives(rules: seq<Rule>, first: nat, s: seq<Byte>, i: int, r: Res)
    requires first < |rules| && 0 <= i <= |s|
  {
    !r.Diverge? && exists n: nat :: Eval(rules[first].patt, Within(rules, s, n), i) == r
  }

  /** In a grammar whose rules have different keys, a reference runs the rule with its key, and no other. */
  lemma CalledRule(rules: seq<Rule>, s: seq<Byte>, n: nat, k: nat, i: int)
    requires DistinctKeys(rules) && k < |rules| && n > 0 && 0 <= i <= |s|
    ensures Called(rules, s, n, rules[k].key, i) == Eval(rules[k].patt, Within(rules, s, n - 1), i)
    ensures Referred(Within(rules, s, n), rules[k].key, i) == Eval(rules[k].patt, Within(rules, s, n - 1), i)
  {
    FindKey(rules, rules[k].key, 0);
    ReferredIs(rules, s, n, rules[k].key, i);
  }

  /** A reference whose key no rule has means nothing, and the grammar that holds it is not accepted. */
  lemma CalledNone(rules: seq<Rule>, first: nat, s: seq<Byte>, n: nat, key: int, i: int)
    requires DistinctKeys(rules) && first < |rules| && forall k :: 0 <= k < |rules| ==> rules[k].key != key
    ensures Called(rules, s, n, key, i) == Res.Diverge
    ensures AllCompile(rules) && IOpenCall(key) in GrammarCode(rules, first) ==> !Accepted(rules, first)
  {
    hide AllCompile, GrammarCode, RuleChecked, Start;
    FindKey(rules, key, 0);
    if AllCompile(rules) && IOpenCall(key) in GrammarCode(rules, first) {
      var i :| 0 <= i < |GrammarCode(rules, first)| && GrammarCode(rules, first)[i] == IOpenCall(key);
      assert Position(rules, key) == 0;
    }
  }

  lemma ReferredIs(rules: seq<Rule>, s: seq<Byte>, n: nat, key: int, i: int)
    ensures Referred(Within(rules, s, n), key, i) == Called(rules, s, n, key, i)
  {
    hide Eval;
    var k := Find(rules, key, 0);
    if n > 0 && k < |rules| && 0 <= i <= |s| { CapsClosed(rules[k].patt, Within(rules, s, n - 1), i); }
  }

  // ---- the rules in the code ----

  /** Rules that compile to what they mean: see `Sane`, and `Lossless` for loops that the builders drop. */
  ghost predicate Faithful(rules: seq<Rule>) {
    AllCompile(rules) && forall k :: 0 <= k < |rules| ==> Sane(rules[k].patt) && Lossless(rules[k].patt)
  }

  /** Every reference names a rule. */
  predicate Defined(c: Code, rules: seq<Rule>) {
    forall i :: 0 <= i < |c| && c[i].IOpenCall? ==> Find(rules, c[i].key, 0) < |rules|
  }

  /** The grammar in which every reference is a call. */
  function Calls(rules: seq<Rule>, first: nat): Code
    requires AllCompile(rules) && first < |rules|
  {
    AllCalls(GrammarCode(rules, first), RuleOf(rules))
  }

  /** The body of rule k run with references as single turns, on any stack. */
  lemma BodyRuns(rules: seq<Rule>, first: nat, k: nat, x: Subject, i: int, stack: seq<Entry>, caps: seq<Capture>)
    requires Faithful(rules) && first < |rules| && k < |rules| && 0 <= i <= |x.s|
    ensures Yields(GrammarCode(rules, first), x, Running(Start(rules, k), i, stack, caps),
                   EvalB(BlockOf(rules[k].patt), x, i, caps), EndOf(rules, k), stack, caps, |caps|)
    ensures Agrees(EvalB(BlockOf(rules[k].patt), x, i, caps), Eval(rules[k].patt, x, i), caps)
  {
    hide *;
    FaithfulParts(rules, k);
    var c, p, b := GrammarCode(rules, first), rules[k].patt, BlockOf(rules[k].patt);
    RulePlaced(rules, first, k);
    RuleSizes(rules, first, k);
    CompiledParts(p);
    MeansImpl(b, Compile(p).code, p);
    Agree(b, p, x, i, caps);
    GoodOf(b);
    BackedMore(b, false);
    SlidesRefl(c, x, EndOf(rules, k));
    Exec(c, x, Start(rules, k), b, 0, 0, stack, i, caps, |caps|);
  }

  lemma FaithfulParts(rules: seq<Rule>, k: nat)
    requires Faithful(rules) && k < |rules|
    ensures AllCompile(rules) && Compile(rules[k].patt).Pattern? && Sane(rules[k].patt) && Lossless(rules[k].patt)
  {
  }

  lemma MeansImpl(b: Block, c: Code, p: Patt)
    requires Means(b, c, p)
    ensures Impl(b, p)
  {
  }

  // ---- the machine with calls does what the references mean ----

  /** The same state, but for captures above those that backtracking restores. */
  ghost predicate Near(st: State, st2: State) {
    || st == st2
    || (st.Failing? && st2.Failing? && st.stack == st2.stack && |st.caps| <= |st2.caps|
      && st2.caps[..|st.caps|] == st.caps)
  }

  /** Is the machine at a reference? */
  predicate AtOpen(c: Code, s: seq<Byte>, st: State) {
    st.Running? && st.p != GIVEUP && 0 <= st.s <= |s| && At(c, st.p).IOpenCall?
  }

  lemma NearStep(c: Code, rule: int -> int, s: seq<Byte>, st: State, st2: State)
    requires Near(st, st2) && StateOk(st) && !AtOpen(c, s, st)
    ensures Near(Step(c, s, st), Step(AllCalls(c, rule), s, st2))
  {
    hide StepAt, LevelsOk;
    if st.Failing? { NearFails(c, AllCalls(c, rule), s, st, st2); }
    if st.Running? { assert !At(c, st.p).IOpenCall? ==> At(AllCalls(c, rule), st.p) == At(c, st.p); }
  }

  lemma NearFails(c: Code, d: Code, s: seq<Byte>, st: State, st2: State)
    requires Near(st, st2) && StateOk(st) && st.Failing?
    ensures Near(Step(c, s, st), Step(d, s, st2))
  {
    if st.stack != [] && Last(st.stack).Choice? {
      var l := Last(st.stack).caplevel;
      assert st.caps[..l] == st2.caps[..l] by { assert st2.caps[..|st.caps|][..l] == st2.caps[..l]; }
    }
  }

  lemma OpenKeepsLevels(c: Code, x: Subject, st: State)
    requires StateOk(st)
    ensures StateOk(OpenStep(c, x, st))
  {
    hide Step;
    StepKeepsLevels(c, x.s, st);
  }

  /** A reference is called: the first of the turns that do what it means. */
  lemma CallStep(rules: seq<Rule>, first: nat, s: seq<Byte>, st: State)
    requires AllCompile(rules) && first < |rules| && AtOpen(GrammarCode(rules, first), s, st)
    ensures var k := Find(rules, At(GrammarCode(rules, first), st.p).key, 0);
            k < |rules| ==>
            Step(Calls(rules, first), s, st) ==
            Running(Start(rules, k), st.s, st.stack + [Call(st.p + 1)], st.caps)
  {
    hide AllCompile, GrammarCode, Start, AllCalls, RuleOf, Step, StepAt;
    var c := GrammarCode(rules, first);
    CallCell(c, RuleOf(rules), st.p);
    RuleFound(rules, At(c, st.p).key);
    CallTurn(Calls(rules, first), s, st, RuleOf(rules)(At(c, st.p).key) - st.p);
  }

  lemma CallCell(c: Code, rule: int -> int, p: int)
    requires At(c, p).IOpenCall?
    ensures At(AllCalls(c, rule), p) == ICall(rule(At(c, p).key) - p)
  {
  }

  lemma CallTurn(d: Code, s: seq<Byte>, st: State, offset: int)
    requires st.Running? && st.p != GIVEUP && 0 <= st.s <= |s| && At(d, st.p) == ICall(offset)
    ensures Step(d, s, st) == Running(st.p + offset, st.s, st.stack + [Call(st.p + 1)], st.caps)
  {
  }

  lemma RuleFound(rules: seq<Rule>, key: int)
    requires AllCompile(rules)
    ensures Find(rules, key, 0) < |rules| ==> RuleOf(rules)(key) == Start(rules, Find(rules, key, 0))
  {
    hide AllCompile, Start;
  }

  /** The state behind a call that matches or fails. */
  ghost predicate Returned(st: State, r: Res, w: int, stack: seq<Entry>, caps: seq<Capture>) {
    if r.Ok? then st == Running(w, r.j, stack, caps + r.caps) else r.Fail? && Near(Failing(stack, caps), st)
  }

  /** A rule called at position i, with its return at word w, does what a reference to it means. */
  lemma {:induction false} CallDone(rules: seq<Rule>, first: nat, s: seq<Byte>, n: nat, k: nat, i: int, w: int,
      stack: seq<Entry>, caps: seq<Capture>)
    returns (st: State)
    requires Faithful(rules) && first < |rules| && k < |rules| && 0 <= i <= |s|
    requires !Eval(rules[k].patt, Within(rules, s, n), i).Diverge? && LevelsOk(stack, |caps|)
    ensures Reaches(Calls(rules, first), s, Running(Start(rules, k), i, stack + [Call(w)], caps), st)
    ensures Returned(st, Eval(rules[k].patt, Within(rules, s, n), i), w, stack, caps)
    decreases n, 2, 0
  {
    hide *;
    FaithfulParts(rules, k);
    var c, d, x, over := GrammarCode(rules, first), Calls(rules, first), Within(rules, s, n), stack + [Call(w)];
    var st0, r := Running(Start(rules, k), i, over, caps), Eval(rules[k].patt, x, i);
    BodyRuns(rules, first, k, x, i, over, caps);
    var e := BodyEnds(c, x, st0, EvalB(BlockOf(rules[k].patt), x, i, caps), r, EndOf(rules, k), over, caps);
    StartOk(Start(rules, k), i, stack, w, caps);
    var m: nat := TurnsTo(c, x, st0, e);
    NotRaised(e, r, EndOf(rules, k), over, caps);
    NearSelf(st0);
    var e2 := Follow(rules, first, s, n, st0, st0, m);
    st := Back(rules, first, s, k, e, e2, r, w, stack, caps);
    ReachesTrans(d, s, st0, e2, st);
  }

  lemma BodyEnds(c: Code, x: Subject, st: State, rb: Res, r: Res, q: int, stack: seq<Entry>, caps: seq<Capture>)
      returns (e: State)
    requires Yields(c, x, st, rb, q, stack, caps, |caps|) && Agrees(rb, r, caps) && !r.Diverge?
    ensures OpenReaches(c, x, st, e) && Ended(e, r, q, stack, caps)
  {
    hide OpenReaches;
    if r.Ok? {
      e := Running(q, r.j, stack, caps + r.caps);
    } else {
      var cf: seq<Capture> :| Keep(cf, caps, |caps|) && OpenReaches(c, x, st, Failing(stack, cf));
      e := Failing(stack, cf);
      assert caps[..|caps|] == caps;
    }
  }

  /** The state at the end q of a body whose result is r. */
  ghost predicate Ended(st: State, r: Res, q: int, stack: seq<Entry>, caps: seq<Capture>) {
    if r.Ok? then st == Running(q, r.j, stack, caps + r.caps) else r.Fail? && Near(Failing(stack, caps), st)
  }

  lemma StartOk(p: int, i: int, stack: seq<Entry>, w: int, caps: seq<Capture>)
    requires LevelsOk(stack, |caps|)
    ensures StateOk(Running(p, i, stack + [Call(w)], caps))
  {
  }

  lemma TurnsTo(c: Code, x: Subject, st: State, e: State) returns (m: nat)
    requires OpenReaches(c, x, st, e)
    ensures OpenRun(c, x, st, m) == e
  {
    m :| OpenRun(c, x, st, m) == e;
  }

  lemma NearSelf(st: State)
    ensures Near(st, st)
  {
  }

  lemma NotRaised(st: State, r: Res, q: int, stack: seq<Entry>, caps: seq<Capture>)
    requires Ended(st, r, q, stack, caps)
    ensures !st.Raised?
  {
  }

  /** From the end of a rule's body back to the word behind the call. */
  lemma Back(rules: seq<Rule>, first: nat, s: seq<Byte>, k: nat, e: State, e2: State, r: Res, w: int,
      stack: seq<Entry>, caps: seq<Capture>)
    returns (st: State)
    requires AllCompile(rules) && first < |rules| && k < |rules|
    requires Ended(e, r, EndOf(rules, k), stack + [Call(w)], caps) && Near(e, e2) && (r.Ok? ==> 0 <= r.j <= |s|)
    ensures Reaches(Calls(rules, first), s, e2, st) && Returned(st, r, w, stack, caps)
  {
    hide AllCompile, Reaches, EndOf, GrammarCode, Start;
    var d := Calls(rules, first);
    st := Step(d, s, e2);
    ReachesStep(d, s, e2);
    RulePlaced(rules, first, k);
    assert Front(stack + [Call(w)]) == stack && Last(stack + [Call(w)]) == Call(w);
    if r.Ok? {
      assert At(d, EndOf(rules, k)) == IRet;
    } else {
      assert st == Failing(stack, e2.caps);
      assert e2.caps[..|caps|] == e.caps[..|caps|] by { assert e2.caps[..|e.caps|][..|caps|] == e2.caps[..|caps|]; }
    }
  }

  /** The run with calls follows the one in which references take single turns. */
  lemma {:induction false} Follow(rules: seq<Rule>, first: nat, s: seq<Byte>, n: nat, st: State, st2: State, m: nat)
      returns (e2: State)
    requires Faithful(rules) && first < |rules| && Near(st, st2) && StateOk(st)
    requires !OpenRun(GrammarCode(rules, first), Within(rules, s, n), st, m).Raised?
    ensures Reaches(Calls(rules, first), s, st2, e2)
            && Near(OpenRun(GrammarCode(rules, first), Within(rules, s, n), st, m), e2)
    decreases n, 1, m
  {
    hide *;
    FaithfulAll(rules);
    var c, d, x := GrammarCode(rules, first), Calls(rules, first), Within(rules, s, n);
    var next := OpenStep(c, x, st);
    OpenFirst(c, x, st, m);
    if m == 0 {
      e2 := st2;
      ReachesRefl(d, s, st2);
    } else {
      OpenKeepsLevels(c, x, st);
      var mid: State;
      if AtOpen(c, s, st) {
        NextCall(rules, first, s, n, st, m);
        OpenIsHere(c, s, st);
        var k := Find(rules, At(c, st.p).key, 0);
        CallStep(rules, first, s, st);
        var r := Eval(rules[k].patt, Within(rules, s, n - 1), st.s);
        mid := CallDone(rules, first, s, n - 1, k, st.s, st.p + 1, st.stack, st.caps) by { OpenLevels(st); }
        NearCall(rules, first, s, n, st, st2, mid, next);
        ReachesStep(d, s, st2);
        ReachesTrans(d, s, st2, Step(d, s, st2), mid);
      } else {
        mid := Step(d, s, st2);
        NearStep(c, RuleOf(rules), s, st, st2);
        CallsAre(rules, first);
        OpenElse(c, x, st);
        ReachesStep(d, s, st2);
      }
      e2 := Follow(rules, first, s, n, next, mid, m - 1);
      ReachesTrans(d, s, st2, mid, e2);
    }
  }

  lemma OpenIsHere(c: Code, s: seq<Byte>, st: State)
    requires AtOpen(c, s, st)
    ensures st.Running? && At(c, st.p).IOpenCall?
  {
  }

  lemma FaithfulAll(rules: seq<Rule>)
    requires Faithful(rules)
    ensures AllCompile(rules)
  {
  }

  lemma OpenFirst(c: Code, x: Subject, st: State, m: nat)
    ensures m == 0 ==> OpenRun(c, x, st, m) == st
    ensures m > 0 ==> OpenRun(c, x, st, m) == OpenRun(c, x, OpenStep(c, x, st), m - 1)
  {
  }

  lemma OpenElse(c: Code, x: Subject, st: State)
    requires !AtOpen(c, x.s, st)
    ensures OpenStep(c, x, st) == Step(c, x.s, st)
  {
  }

  lemma CallsAre(rules: seq<Rule>, first: nat)
    requires AllCompile(rules) && first < |rules|
    ensures Calls(rules, first) == AllCalls(GrammarCode(rules, first), RuleOf(rules))
  {
  }

  lemma OpenLevels(st: State)
    requires StateOk(st) && st.Running?
    ensures LevelsOk(st.stack, |st.caps|)
  {
  }

  /** A reference in a single turn. */
  lemma OpenCall(rules: seq<Rule>, first: nat, s: seq<Byte>, n: nat, st: State)
    requires AllCompile(rules) && first < |rules| && AtOpen(GrammarCode(rules, first), s, st)
    ensures var c := GrammarCode(rules, first);
            var r := Called(rules, s, n, At(c, st.p).key, st.s);
            OpenStep(c, Within(rules, s, n), st) ==
            match r
            case Ok(j, cs) => Running(st.p + 1, j, st.stack, st.caps + cs)
            case Fail => Failing(st.stack, st.caps)
            case Diverge => Raised
  {
    hide AllCompile, GrammarCode, Called;
    ReferredIs(rules, s, n, At(GrammarCode(rules, first), st.p).key, st.s);
  }

  lemma CalledIs(rules: seq<Rule>, s: seq<Byte>, n: nat, key: int, i: int)
    ensures var k := Find(rules, key, 0);
            Called(rules, s, n, key, i) == if n == 0 || k == |rules| || !(0 <= i <= |s|) then Res.Diverge
              else Eval(rules[k].patt, Within(rules, s, n - 1), i)
  {
  }

  /** A run that is not given up for want of depth goes on behind its references. */
  lemma NextCall(rules: seq<Rule>, first: nat, s: seq<Byte>, n: nat, st: State, m: nat)
    requires AllCompile(rules) && first < |rules| && AtOpen(GrammarCode(rules, first), s, st) && m > 0
    requires !OpenRun(GrammarCode(rules, first), Within(rules, s, n), st, m).Raised?
    ensures st.Running? && 0 <= st.s <= |s|
    ensures var k := Find(rules, At(GrammarCode(rules, first), st.p).key, 0);
            n > 0 && k < |rules| && !Eval(rules[k].patt, Within(rules, s, n - 1), st.s).Diverge?
  {
    hide AllCompile, GrammarCode, Eval, Within, OpenStep;
    var c, x := GrammarCode(rules, first), Within(rules, s, n);
    OpenCall(rules, first, s, n, st);
    OpenFirst(c, x, st, m);
    OpenRaised(c, x, m - 1);
    CalledIs(rules, s, n, At(c, st.p).key, st.s);
  }

  lemma NearCall(rules: seq<Rule>, first: nat, s: seq<Byte>, n: nat, st: State, st2: State, mid: State, next: State)
    requires AllCompile(rules) && first < |rules| && AtOpen(GrammarCode(rules, first), s, st) && Near(st, st2) && n > 0
    requires next == OpenStep(GrammarCode(rules, first), Within(rules, s, n), st)
    requires var k := Find(rules, At(GrammarCode(rules, first), st.p).key, 0);
             k < |rules| && Returned(mid, Eval(rules[k].patt, Within(rules, s, n - 1), st.s), st.p + 1, st.stack,
               st.caps)
    ensures st == st2 && Near(next, mid)
  {
    hide AllCompile, GrammarCode, Eval, Within, OpenStep;
    OpenCall(rules, first, s, n, st);
    CalledIs(rules, s, n, At(GrammarCode(rules, first), st.p).key, st.s);
  }

  // ---- where references have no result, the run goes on ----

  /** A run that never ends when calls nest n deep at most goes on for n turns with calls. */
  lemma {:induction false} Lasts(rules: seq<Rule>, first: nat, s: seq<Byte>, n: nat, st: State, st2: State, m: nat)
    requires Faithful(rules) && first < |rules| && AllCompile(rules) && Defined(GrammarCode(rules, first), rules)
    requires Forever(GrammarCode(rules, first), Within(rules, s, n), st) && Near(st, st2) && StateOk(st) && m <= n
    ensures !RunN(Calls(rules, first), s, st2, m).Halted()
    decreases m
  {
    hide *;
    var c, d, x := GrammarCode(rules, first), Calls(rules, first), Within(rules, s, n);
    var next := OpenStep(c, x, st);
    StillGoing(c, x, st, st2);
    RunFirst(d, s, st2, m);
    if m > 0 {
      OpenKeepsLevels(c, x, st);
      ForeverNext(c, x, st);
      if AtOpen(c, s, st) {
        OpenIsHere(c, s, st);
        DefinedAt(rules, c, st.p);
        LastsCall(rules, first, s, n, st, st2, m);
      } else {
        NearStep(c, RuleOf(rules), s, st, st2);
        CallsAre(rules, first);
        OpenElse(c, x, st);
        Lasts(rules, first, s, n, next, Step(d, s, st2), m - 1);
      }
    }
  }

  lemma {:induction false} LastsCall(rules: seq<Rule>, first: nat, s: seq<Byte>, n: nat, st: State, st2: State, m: nat)
    requires Faithful(rules) && first < |rules| && AllCompile(rules) && Defined(GrammarCode(rules, first), rules)
    requires Forever(GrammarCode(rules, first), Within(rules, s, n), st) && Near(st, st2) && StateOk(st) && 0 < m <= n
    requires st.Running? && At(GrammarCode(rules, first), st.p).IOpenCall? && AtOpen(GrammarCode(rules, first), s, st)
    requires Find(rules, At(GrammarCode(rules, first), st.p).key, 0) < |rules|
    ensures !RunN(Calls(rules, first), s, Step(Calls(rules, first), s, st2), m - 1).Halted()
    decreases m, 0
  {
    hide *;
    var c, d, x := GrammarCode(rules, first), Calls(rules, first), Within(rules, s, n);
    var k, next := Find(rules, At(c, st.p).key, 0), OpenStep(c, x, st);
    OpenPosition(c, s, st);
    var r, over := Eval(rules[k].patt, Within(rules, s, n - 1), st.s), st.stack + [Call(st.p + 1)];
    CallStep(rules, first, s, st);
    NearRunning(st, st2);
    var st3 := Running(Start(rules, k), st.s, over, st.caps);
    OpenLevels(st);
    if r.Diverge? {
      BodyRuns(rules, first, k, Within(rules, s, n - 1), st.s, over, st.caps);
      BodyForever(c, Within(rules, s, n - 1), st3,
        EvalB(BlockOf(rules[k].patt), Within(rules, s, n - 1), st.s, st.caps), r,
                  EndOf(rules, k), over, st.caps);
      StartOk(Start(rules, k), st.s, st.stack, st.p + 1, st.caps);
      NearSelf(st3);
      Lasts(rules, first, s, n - 1, st3, st3, m - 1);
    } else {
      var mid := CallDone(rules, first, s, n - 1, k, st.s, st.p + 1, st.stack, st.caps);
      NearCall(rules, first, s, n, st, st2, mid, next);
      ReturnedRuns(mid, r, st.p + 1, st.stack, st.caps);
      var k2: nat := RealTurns(d, s, st3, mid);
      RealLater(d, s, st3, mid, k2, m - 1);
      if m - 1 > k2 {
        ForeverNext(c, x, st);
        OpenKeepsLevels(c, x, st);
        Lasts(rules, first, s, n, next, mid, m - 1 - k2);
      }
    }
  }

  lemma StillGoing(c: Code, x: Subject, st: State, st2: State)
    requires Forever(c, x, st) && Near(st, st2)
    ensures !st2.Halted()
  {
    assert !OpenRun(c, x, st, 0).Halted();
  }

  lemma RunFirst(c: Code, s: seq<Byte>, st: State, m: nat)
    ensures m == 0 ==> RunN(c, s, st, m) == st
    ensures m > 0 ==> RunN(c, s, st, m) == RunN(c, s, Step(c, s, st), m - 1)
  {
  }

  lemma ForeverNext(c: Code, x: Subject, st: State)
    requires Forever(c, x, st)
    ensures Forever(c, x, OpenStep(c, x, st))
  {
    hide OpenStep;
    forall n: nat ensures !OpenRun(c, x, OpenStep(c, x, st), n).Halted() { assert !OpenRun(c, x, st, n + 1).Halted(); }
  }

  lemma DefinedAt(rules: seq<Rule>, c: Code, p: int)
    requires Defined(c, rules) && At(c, p).IOpenCall?
    ensures Find(rules, At(c, p).key, 0) < |rules|
  {
  }

  lemma OpenPosition(c: Code, s: seq<Byte>, st: State)
    requires AtOpen(c, s, st)
    ensures 0 <= st.s <= |s|
  {
  }

  lemma NearRunning(st: State, st2: State)
    requires Near(st, st2) && st.Running?
    ensures st == st2
  {
  }

  lemma BodyForever(c: Code, x: Subject, st: State, rb: Res, r: Res, q: int, stack: seq<Entry>, caps: seq<Capture>)
    requires Yields(c, x, st, rb, q, stack, caps, |caps|) && Agrees(rb, r, caps) && r.Diverge?
    ensures Forever(c, x, st)
  {
  }

  lemma ReturnedRuns(st: State, r: Res, w: int, stack: seq<Entry>, caps: seq<Capture>)
    requires Returned(st, r, w, stack, caps)
    ensures !st.Halted()
  {
  }

  lemma RealTurns(c: Code, s: seq<Byte>, st: State, st2: State) returns (k: nat)
    requires Reaches(c, s, st, st2)
    ensures RunN(c, s, st, k) == st2
  {
    k :| RunN(c, s, st, k) == st2;
  }

  lemma RealLater(c: Code, s: seq<Byte>, st: State, st2: State, k: nat, m: nat)
    requires RunN(c, s, st, k) == st2 && !st2.Halted()
    ensures if m <= k then !RunN(c, s, st, m).Halted() else RunN(c, s, st, m) == RunN(c, s, st2, m - k)
  {
    hide RunN;
    if m <= k {
      RunAdd(c, s, st, m, k - m);
      if RunN(c, s, st, m).Halted() { RunHalted(c, s, RunN(c, s, st, m), k - m); }
    } else {
      RunAdd(c, s, st, k, m - k);
    }
  }

  // ---- whole runs of a grammar ----

  lemma GrammarStarts(rules: seq<Rule>, first: nat, s: seq<Byte>, i: int)
    requires AllCompile(rules) && first < |rules| && 0 <= i <= |s|
    ensures Step(Calls(rules, first), s, Init(i)) ==
            Running(Start(rules, first), i, [Choice(GIVEUP, i, 0)] + [Call(1)], [])
  {
    hide AllCompile, Start, Bodies;
    assert At(Calls(rules, first), 0) == ICall(Start(rules, first));
  }

  /** Behind the call of the initial rule the jump leads to the end. */
  lemma GrammarEnds(rules: seq<Rule>, first: nat, s: seq<Byte>, i: int, st: State, r: Res)
    requires AllCompile(rules) && first < |rules| && 0 <= i <= |s| && Returned(st, r, 1, [Choice(GIVEUP, i, 0)], [])
    requires r.Ok? ==> 0 <= r.j <= |s|
    ensures Reaches(Calls(rules, first), s, st, Final(r))
  {
    hide AllCompile, Start, Bodies, Reaches;
    var d := Calls(rules, first);
    var st1 := Step(d, s, st);
    ReachesStep(d, s, st);
    ReachesStep(d, s, st1);
    ReachesTrans(d, s, st, st1, Step(d, s, st1));
    if r.Ok? {
      assert [] + r.caps == r.caps;
      assert At(d, 1) == IJmp(|d| - 1);
      assert st1 == Running(|d|, r.j, [Choice(GIVEUP, i, 0)], r.caps);
    } else {
      assert Front([Choice(GIVEUP, i, 0)]) == [];
    }
  }

  /** The run of a grammar: its result where calls nest n deep at most, or n turns and more. */
  lemma GrammarRuns(rules: seq<Rule>, first: nat, s: seq<Byte>, n: nat, i: int)
    requires Faithful(rules) && first < |rules| && 0 <= i <= |s| && AllCompile(rules)
             && Defined(GrammarCode(rules, first), rules)
    ensures var r := Eval(rules[first].patt, Within(rules, s, n), i);
            if r.Diverge? then !RunN(Calls(rules, first), s, Init(i), n).Halted()
            else Reaches(Calls(rules, first), s, Init(i), Final(r))
  {
    hide *;
    var c, d, x, stack := GrammarCode(rules, first), Calls(rules, first), Within(rules, s, n), [Choice(GIVEUP, i, 0)];
    var st0, r := Running(Start(rules, first), i, stack + [Call(1)], []), Eval(rules[first].patt, x, i);
    GrammarStarts(rules, first, s, i);
    BottomOk(i);
    if r.Diverge? {
      BodyRuns(rules, first, first, x, i, stack + [Call(1)], []);
      BodyForever(c, x, st0, EvalB(BlockOf(rules[first].patt), x, i, []), r, EndOf(rules, first), stack + [Call(1)],
        []);
      StartOk(Start(rules, first), i, stack, 1, []);
      NearSelf(st0);
      RunFirst(d, s, Init(i), n);
      if n > 0 { Lasts(rules, first, s, n, st0, st0, n - 1); }
      InitGoing(i);
    } else {
      var st := CallDone(rules, first, s, n, first, i, 1, stack, []);
      GrammarEnds(rules, first, s, i, st, r);
      ReachesStep(d, s, Init(i));
      ReachesTrans(d, s, Init(i), st0, st);
      ReachesTrans(d, s, Init(i), st, Final(r));
    }
  }

  lemma BottomOk(i: int)
    ensures LevelsOk([Choice(GIVEUP, i, 0)], 0)
  {
  }

  lemma InitGoing(i: int)
    ensures !Init(i).Halted()
  {
  }

  /**
    The code of a grammar computes its meaning.  The machine, started at position i, halts if and
    only if the grammar gives a result there, and then in the state that the result asks for.
   */
  lemma GrammarCorrect(rules: seq<Rule>, first: nat, s: seq<Byte>, i: int, h: State)
    requires Faithful(rules) && first < |rules| && 0 <= i <= |s| && h.Halted()
             && Defined(GrammarCode(rules, first), rules)
    ensures Reaches(Calls(rules, first), s, Init(i), h) <==>
            exists r: Res :: Gives(rules, first, s, i, r) && h == Final(r)
  {
    hide AllCompile, Eval, Within, Defined, GrammarCode, RunN, Calls, Faithful, Final;
    FaithfulAll(rules);
    var d := Calls(rules, first);
    if Reaches(d, s, Init(i), h) {
      var n: nat :| RunN(d, s, Init(i), n) == h;
      GrammarRuns(rules, first, s, n, i);
      var r := Eval(rules[first].patt, Within(rules, s, n), i);
      FinalHalted(r);
      HaltUnique(d, s, Init(i), h, Final(r));
      assert Gives(rules, first, s, i, r);
    }
    if r: Res :| Gives(rules, first, s, i, r) && h == Final(r) {
      var n: nat :| Eval(rules[first].patt, Within(rules, s, n), i) == r;
      GrammarRuns(rules, first, s, n, i);
    }
  }

  lemma FinalHalted(r: Res)
    ensures Final(r).Halted()
  {
  }

  // ---- deeper calls change no result ----

  /** Where references have a meaning in x, they have the same in y. */
  ghost predicate Refines(x: Subject, y: Subject) {
    x.s == y.s && forall key: int, i: int :: !Referred(x, key, i).Diverge? ==>
      Referred(y, key, i) == Referred(x, key, i)
  }

  /** Where p has a result on x, it has the same on y. */
  predicate SameOn(p: Patt, x: Subject, y: Subject, i: int)
    requires x.s == y.s && 0 <= i <= |x.s|
  {
    !Eval(p, x, i).Diverge? ==> Eval(p, y, i) == Eval(p, x, i)
  }

  lemma {:induction false} EvalGrows(p: Patt, x: Subject, y: Subject, i: int)
    requires Refines(x, y) && 0 <= i <= |x.s|
    ensures SameOn(p, x, y, i)
    decreases p, 0, 0
  {
    match p
    case Seq(a, b) =>
      EvalGrows(a, x, y, i);
      var r := Eval(a, x, i);
      if r.Ok? { EvalGrows(b, x, y, r.j); }
    case Alt(a, b) => EvalGrows(a, x, y, i); EvalGrows(b, x, y, i);
    case Diff(a, b) => EvalGrows(a, x, y, i); EvalGrows(b, x, y, i);
    case Neg(a) => EvalGrows(a, x, y, i);
    case AndP(a) => EvalGrows(a, x, y, i);
    case Rept(a, n) =>
      if n < 0 { AtMostGrows(a, -n, x, y, i); } else {
        TimesGrows(a, n, x, y, i);
        var r := EvalTimes(a, n, x, i);
        if r.Ok? { LoopGrows(a, x, y, r.j); }
      }
    case Capt(_, _, a) => EvalGrows(a, x, y, i);
    case _ =>
  }

  lemma {:induction false} TimesGrows(a: Patt, n: nat, x: Subject, y: Subject, i: int)
    requires Refines(x, y) && 0 <= i <= |x.s|
    ensures !EvalTimes(a, n, x, i).Diverge? ==> EvalTimes(a, n, y, i) == EvalTimes(a, n, x, i)
    decreases a, 1, n
  {
    hide Eval, Refines;
    if n > 0 {
      EvalGrows(a, x, y, i);
      var r := Eval(a, x, i);
      if r.Ok? { TimesGrows(a, n - 1, x, y, r.j); }
    }
  }

  lemma {:induction false} LoopGrows(a: Patt, x: Subject, y: Subject, i: int)
    requires Refines(x, y) && 0 <= i <= |x.s|
    ensures !EvalLoop(a, x, i).Diverge? ==> EvalLoop(a, y, i) == EvalLoop(a, x, i)
    decreases a, 1, |x.s| - i
  {
    hide Eval;
    EvalGrows(a, x, y, i);
    var r := Eval(a, x, i);
    if r.Ok? && r.j > i { LoopGrows(a, x, y, r.j); }
  }

  lemma {:induction false} AtMostGrows(a: Patt, n: nat, x: Subject, y: Subject, i: int)
    requires Refines(x, y) && 0 <= i <= |x.s|
    ensures !EvalAtMost(a, n, x, i).Diverge? ==> EvalAtMost(a, n, y, i) == EvalAtMost(a, n, x, i)
    decreases a, 1, n
  {
    hide Eval, Refines;
    if n > 0 {
      EvalGrows(a, x, y, i);
      var r := Eval(a, x, i);
      if r.Ok? { AtMostGrows(a, n - 1, x, y, r.j); }
    }
  }

  // ---- rules from which the builders drop something ----

  ghost predicate SaneRules(rules: seq<Rule>) {
    AllCompile(rules) && forall k :: 0 <= k < |rules| ==> Sane(rules[k].patt)
  }

  /** What the builders keep of the rules. */
  function KeptRules(rules: seq<Rule>): (r: seq<Rule>)
    ensures |r| == |rules|
  {
    seq(|rules|, k requires 0 <= k < |rules| => Rule(rules[k].key, Kept(rules[k].patt)))
  }

  lemma KeptFaithful(rules: seq<Rule>)
    requires SaneRules(rules)
    ensures Faithful(KeptRules(rules))
  {
    hide Compile, Sane, Lossless, Kept, BlockOf;
    forall k | 0 <= k < |rules|
      ensures var p := KeptRules(rules)[k].patt; Compile(p).Pattern? && Sane(p) && Lossless(p)
    {
      KeptCode(rules[k].patt);
    }
  }

  lemma {:induction false} KeptBodies(rules: seq<Rule>, k: nat)
    requires AllCompile(rules) && AllCompile(KeptRules(rules)) && k <= |rules|
    ensures Bodies(KeptRules(rules), k) == Bodies(rules, k) && Start(KeptRules(rules), k) == Start(rules, k)
    decreases k
  {
    hide Compile, Kept, BlockOf, Sane, Lossless;
    if k > 0 {
      KeptBodies(rules, k - 1);
      KeptCode(rules[k - 1].patt);
    }
  }

  lemma {:induction false} KeptFind(rules: seq<Rule>, key: int, k: nat)
    requires k <= |rules|
    ensures Find(KeptRules(rules), key, k) == Find(rules, key, k)
    decreases |rules| - k
  {
    hide Kept;
    if k < |rules| && rules[k].key != key { KeptFind(rules, key, k + 1); }
  }

  /** Dropping what the builders drop changes no word of a grammar. */
  lemma KeptGrammar(rules: seq<Rule>, first: nat)
    requires SaneRules(rules) && first < |rules|
    ensures AllCompile(rules) && AllCompile(KeptRules(rules)) && Calls(KeptRules(rules), first) == Calls(rules, first)
    ensures Defined(GrammarCode(rules, first), rules) ==>
            Defined(GrammarCode(KeptRules(rules), first), KeptRules(rules))
  {
    hide AllCompile, SaneRules, Compile, Kept, Start, Bodies, Faithful;
    SaneCompile(rules);
    KeptFaithful(rules);
    FaithfulAll(KeptRules(rules));
    KeptBodies(rules, |rules|);
    KeptBodies(rules, first);
    assert GrammarCode(KeptRules(rules), first) == GrammarCode(rules, first);
    forall key: int
      ensures RuleOf(KeptRules(rules))(key) == RuleOf(rules)(key)
              && Find(KeptRules(rules), key, 0) == Find(rules, key, 0) {
      KeptFind(rules, key, 0);
      var k := Find(rules, key, 0);
      if k < |rules| { KeptBodies(rules, k); }
    }
  }

  lemma SaneCompile(rules: seq<Rule>)
    requires SaneRules(rules)
    ensures AllCompile(rules)
  {
  }

  /** Where rules have results, what is kept of them has the same. */
  lemma {:induction false} KeptCalled(rules: seq<Rule>, s: seq<Byte>, n: nat, key: int, i: int)
    requires SaneRules(rules)
    ensures !Called(rules, s, n, key, i).Diverge? ==>
            Called(KeptRules(rules), s, n, key, i) == Called(rules, s, n, key, i)
    decreases n, 0
  {
    hide Eval, Sane, Kept, Within, Find, Compile;
    KeptFind(rules, key, 0);
    var k := Find(rules, key, 0);
    CalledIs(rules, s, n, key, i);
    CalledIs(KeptRules(rules), s, n, key, i);
    if n > 0 && k < |rules| && 0 <= i <= |s| { KeptResult(rules, s, n - 1, k, i); }
  }

  lemma {:induction false} KeptResult(rules: seq<Rule>, s: seq<Byte>, n: nat, k: nat, i: int)
    requires SaneRules(rules) && k < |rules| && 0 <= i <= |s|
    ensures var r := Eval(rules[k].patt, Within(rules, s, n), i);
            !r.Diverge? ==> Eval(KeptRules(rules)[k].patt, Within(KeptRules(rules), s, n), i) == r
    decreases n, 1
  {
    hide Eval, Sane, Kept, Called, Compile, Referred;
    var x, y := Within(rules, s, n), Within(KeptRules(rules), s, n);
    forall key: int, j: int ensures !Referred(x, key, j).Diverge? ==> Referred(y, key, j) == Referred(x, key, j) {
      ReferredIs(rules, s, n, key, j);
      ReferredIs(KeptRules(rules), s, n, key, j);
      KeptCalled(rules, s, n, key, j);
    }
    EvalGrows(rules[k].patt, x, y, i);
    KeptEval(rules[k].patt, y, i);
  }

  /**
    The code of any grammar of sane rules.  It halts exactly where what the builders keep of the
    rules gives a result; and where the rules as written give one, it halts with that.
   */
  lemma GrammarHalts(rules: seq<Rule>, first: nat, s: seq<Byte>, i: int, h: State)
    requires SaneRules(rules) && first < |rules| && 0 <= i <= |s| && h.Halted() && AllCompile(rules)
             && Defined(GrammarCode(rules, first), rules)
    ensures Reaches(Calls(rules, first), s, Init(i), h) <==>
            exists r: Res :: Gives(KeptRules(rules), first, s, i, r) && h == Final(r)
    ensures forall r: Res :: Gives(rules, first, s, i, r) ==> Reaches(Calls(rules, first), s, Init(i), Final(r))
  {
    hide AllCompile, Eval, Within, Defined, GrammarCode, Calls, Faithful, Final, SaneRules, Reaches, KeptRules;
    KeptGrammar(rules, first);
    KeptFaithful(rules);
    GrammarCorrect(KeptRules(rules), first, s, i, h);
    forall r: Res | Gives(rules, first, s, i, r) ensures Reaches(Calls(rules, first), s, Init(i), Final(r)) {
      var n: nat :| Eval(rules[first].patt, Within(rules, s, n), i) == r;
      KeptResult(rules, s, n, first, i);
      assert Gives(KeptRules(rules), first, s, i, r);
      FinalHalted(r);
      GrammarCorrect(KeptRules(rules), first, s, i, Final(r));
    }
  }

  /** A grammar gives one result at most. */
  lemma GivesOnce(rules: seq<Rule>, first: nat, s: seq<Byte>, i: int, r1: Res, r2: Res)
    requires SaneRules(rules) && first < |rules| && 0 <= i <= |s| && AllCompile(rules)
             && Defined(GrammarCode(rules, first), rules)
    requires Gives(rules, first, s, i, r1) && Gives(rules, first, s, i, r2)
    ensures r1 == r2
  {
    hide AllCompile, Eval, Within, Defined, GrammarCode, Calls, SaneRules, Reaches, KeptRules;
    GrammarHalts(rules, first, s, i, Final(r1));
    HaltUnique(Calls(rules, first), s, Init(i), Final(r1), Final(r2));
  }

  /**
    The code that fix_l returns for an accepted grammar of sane rules: it halts exactly where what
    the builders keep of the rules gives a result, and where the rules as written give one, with that.
   */
  lemma FixedCorrect(rules: seq<Rule>, first: nat, s: seq<Byte>, i: int, h: State)
    requires Accepted(rules, first) && SaneRules(rules) && 0 <= i <= |s| && h.Halted()
    ensures first < |rules| && AllCompile(rules)
    ensures Reaches(Fixed(rules, first), s, Init(i), h) <==>
            exists r: Res :: Gives(KeptRules(rules), first, s, i, r) && h == Final(r)
    ensures forall r: Res :: Gives(rules, first, s, i, r) ==> Reaches(Fixed(rules, first), s, Init(i), Final(r))
  {
    hide Accepted, AllCompile, Eval, Within, Defined, GrammarCode, Faithful, Final, SaneRules, Reaches, KeptRules,
      Fixed, RuleOf, AllCalls, Gives;
    AcceptedDefined(rules, first);
    GrammarHalts(rules, first, s, i, h);
    AcceptedLinked(rules, first, s, i, h);
    forall r: Res | Gives(rules, first, s, i, r) ensures Reaches(Fixed(rules, first), s, Init(i), Final(r)) {
      FinalHalted(r);
      AcceptedLinked(rules, first, s, i, Final(r));
    }
  }

  lemma AcceptedDefined(rules: seq<Rule>, first: nat)
    requires Accepted(rules, first)
    ensures first < |rules| && AllCompile(rules) && Defined(GrammarCode(rules, first), rules)
  {
    hide AllCompile, GrammarCode, RuleChecked, Start;
    var c := GrammarCode(rules, first);
    forall i | 0 <= i < |c| && c[i].IOpenCall? ensures Find(rules, c[i].key, 0) < |rules| {
      assert Position(rules, c[i].key) != 0;
    }
  }
}
