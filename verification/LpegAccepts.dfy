/**
  Which grammars fix_l accepts: exactly those whose rules and whose loops with references are seen
  without an error, by recursion over blocks, and whose references all name rules.
 */
module LpegAccepts {
  import opened LpegCode
  import opened LpegMachine
  import opened LpegPeg
  import opened LpegBlock
  import opened LpegExec
  import opened LpegBuild
  import opened LpegShape
  import opened LpegVerify
  import opened LpegCorrect
  import opened LpegGrammar
  import opened LpegCheckrule
  import opened LpegSees
  import LpegTyping
  import LpegFix

  // ---- one call of verify ----

  /** The same call, stopped nowhere. */
  function Free(g: Verifying): Verifying {
    Verifying(g.c, g.rules, g.p0, -1)
  }

  lemma FreeIs(g: Verifying)
    requires Made(g)
    ensures Unstopped(Free(g)) && AllCompile(g.rules) && g.e >= 0
  {
    hide AllCompile, RuleHere;
    StopKind(g);
  }

  /** Where the call stops, a run that is not stopped fails an assertion. */
  lemma FreeStops(g: Verifying)
    requires Made(g) && AllCompile(g.rules)
    ensures Runs(Free(g), Going(g.e, []), BadPattern)
  {
    hide AllCompile, Runs;
    StopKind(g);
    FreeIs(g);
    RunsDone(Free(g), BadPattern);
    RunsNext(Free(g), Going(g.e, []), BadPattern);
  }

  lemma {:induction false} RunsOnce(g: Verifying, st: Scan, r: Scan, r2: Scan)
    requires AllCompile(g.rules) && Runs(g, st, r) && Runs(g, st, r2)
    ensures r == r2
  {
    hide AllCompile, VTurn;
    var n: nat :| After(g, st, n) == r;
    var m: nat :| After(g, st, m) == r2;
    if n <= m {
      AfterMore(g, st, n, m - n);
      Stopped(g.c, g.rules, g.e, r, m - n);
    } else {
      AfterMore(g, st, m, n - m);
      Stopped(g.c, g.rules, g.e, r2, n - m);
    }
  }

  /** The result that the run has when it is not stopped, from the one that it has when it is. */
  function Unended(r: Scan): Scan {
    if r == Finished(false) then BadPattern else r
  }

  /** One turn, at a word where the call does not stop, is the same when it is stopped nowhere. */
  lemma FreeNext(g: Verifying, p: int, back: seq<VEntry>)
    requires AllCompile(g.rules) && p != g.e && !Next(g, Going(p, back)).BadPattern?
    ensures Next(Free(g), Going(p, back)) == Next(g, Going(p, back)) != Finished(false)
  {
    hide AllCompile, Position;
    if Backtracked(back) == Finished(false) { NotBacktracked(back); }
  }

  lemma {:induction false} NotBacktracked(back: seq<VEntry>)
    ensures Backtracked(back) != Finished(false)
    decreases |back|
  {
    if back != [] && Top(back).isCall { NotBacktracked(Rest(back)); }
  }

  /** A call that ends does what it would do without being stopped, up to the word where it stops. */
  lemma {:induction false} StoppedRuns(g: Verifying, p: int, back: seq<VEntry>, n: nat)
    requires Made(g) && AllCompile(g.rules) && Done(After(g, Going(p, back), n))
    ensures Runs(Free(g), Going(p, back), Unended(After(g, Going(p, back), n)))
    decreases n
  {
    hide AllCompile, Made, Runs, VTurn, Next;
    NotYet(g, p, back, n);
    AfterFirst(g, Going(p, back), n - 1);
    var st := Next(g, Going(p, back));
    if p == g.e {
      StopTurn(g, back);
      Stopped(g.c, g.rules, g.e, st, n - 1);
      FreeStops(g);
    } else {
      if !st.Going? { Stopped(g.c, g.rules, g.e, st, n - 1); }
      FreeNext(g, p, back);
      if st.Going? { StoppedRuns(g, st.p, st.back, n - 1); } else { RunsDone(Free(g), st); }
      RunsNext(Free(g), Going(p, back), Unended(After(g, Going(p, back), n)));
    }
  }

  lemma NotYet(g: Verifying, p: int, back: seq<VEntry>, n: nat)
    requires AllCompile(g.rules) && Done(After(g, Going(p, back), n))
    ensures n > 0
  {
    hide AllCompile;
  }

  lemma StopTurn(g: Verifying, back: seq<VEntry>)
    requires AllCompile(g.rules)
    ensures Next(g, Going(g.e, back)) == if back == [] then Finished(false) else BadPattern
  {
    hide AllCompile;
  }

  /** The call has an answer exactly when its block is seen without an error, and it is what is seen. */
  lemma SeenExactly(g: Verifying, b: Block)
    requires Made(g) && BodyOf(g, b)
    ensures AllCompile(g.rules)
    ensures forall x :: Verifies(g.c, g.rules, g.p0, g.e, x) <==> See(g.rules, b, g.p0, {}, 200) == Some(!x)
  {
    hide *;
    CalledProper(g);
    FreeIs(g);
    BodyParts(g, b);
    var u := Free(g);
    FreeParts(g);
    FreeStops(g);
    NothingSaved();
    RunsDone(u, Finished(true));
    LeavesHere(u, g.e, [], BadPattern, Finished(true));
    var r := XBlock(u, g.p0, b, 0, [], BadPattern, Finished(true));
    CallEnds(g);
    var n := EndOfCall(g);
    var answer := After(g, Going(g.p0, []), n);
    StoppedRuns(g, g.p0, [], n);
    RunsOnce(u, Going(g.p0, []), r, Unended(answer));
    AnswerSeen(See(g.rules, b, g.p0, {}, 200), answer, r);
    forall x ensures Verifies(g.c, g.rules, g.p0, g.e, x) <==> answer == Finished(x) {
      AnswerOnce(g, n, x);
    }
  }

  lemma FreeParts(g: Verifying)
    ensures Free(g).c == g.c && Free(g).rules == g.rules
  {
  }

  lemma NothingSaved()
    ensures OpenOf([]) == {} && RoomOf([]) == 200 && Backtracked([]) == Finished(true)
  {
  }

  lemma EndOfCall(g: Verifying) returns (n: nat)
    requires AllCompile(g.rules) && Ends(g, Going(g.p0, []))
    ensures Done(After(g, Going(g.p0, []), n))
  {
    hide AllCompile, After;
    n :| Done(After(g, Going(g.p0, []), n));
  }

  lemma AnswerSeen(v: Option<bool>, answer: Scan, r: Scan)
    requires Fits(v, r, BadPattern, Finished(true)) && r == Unended(answer) && Done(answer)
    ensures forall x :: answer == Finished(x) <==> v == Some(!x)
  {
  }

  lemma AnswerOnce(g: Verifying, n: nat, x: bool)
    requires AllCompile(g.rules) && Done(After(g, Going(g.p0, []), n))
    ensures Verifies(g.c, g.rules, g.p0, g.e, x) <==> After(g, Going(g.p0, []), n) == Finished(x)
  {
    hide AllCompile, VTurns;
    if Verifies(g.c, g.rules, g.p0, g.e, x) {
      var m: nat :| VTurns(g.c, g.rules, g.e, Going(g.p0, []), m) == Finished(x);
      AfterTurns(g, m);
      RunsIs(g, n);
      RunsIs(g, m);
      RunsOnce(g, Going(g.p0, []), After(g, Going(g.p0, []), n), Finished(x));
    }
    AfterTurns(g, n);
  }

  lemma AfterTurns(g: Verifying, n: nat)
    requires AllCompile(g.rules)
    ensures After(g, Going(g.p0, []), n) == VTurns(g.c, g.rules, g.e, Going(g.p0, []), n)
  {
  }

  lemma RunsIs(g: Verifying, n: nat)
    requires AllCompile(g.rules) && Done(After(g, Going(g.p0, []), n))
    ensures Runs(g, Going(g.p0, []), After(g, Going(g.p0, []), n))
  {
    hide AllCompile, After;
  }

  // ---- the loops of a rule ----

  /** The word j closes a loop. */
  ghost predicate Closes(c: Code, j: int) {
    At(c, j).IPartialCommit? && At(c, j).offset < 0
  }

  /** The words behind a charset instruction are its set. */
  ghost predicate Padded(c: Code, from: int, to: int) {
    forall i :: from <= i < to && Size(At(c, i)) > 1 ==> Sub(c, i, Words(At(c, i)))
  }

  /** Every loop that is closed from word i on and holds a call, or the call at `open`, is verified. */
  ghost predicate AllLoops(c: Code, rules: seq<Rule>, i: int, to: int, open: int)
    requires AllCompile(rules)
  {
    forall j :: i <= j < to && Closes(c, j) && (j + At(c, j).offset <= open || LoopRefers(c, i, j)) ==>
      Verifies(c, rules, j + At(c, j).offset, j, true)
  }

  /** A reference from word i on stands in the loop that is closed at word j. */
  ghost predicate LoopRefers(c: Code, i: int, j: int)
    requires Closes(c, j)
  {
    exists q :: i <= q < j && j + At(c, j).offset <= q && At(c, q).IOpenCall?
  }

  lemma PadWords(c: Code, from: int, to: int, i: int, j: int)
    requires Padded(c, from, to) && from <= i < to && i < j < i + Size(At(c, i))
    ensures At(c, j) == CharsetWord
  {
    SubAt(c, i, Words(At(c, i)), j - i);
  }

  lemma {:induction false} LoopsAre(c: Code, rules: seq<Rule>, from: int, i: int, to: int, open: int)
    requires AllCompile(rules) && from <= i && Padded(c, from, to) && open < i
    ensures LoopsChecked(c, rules, i, to, open) <==> AllLoops(c, rules, i, to, open)
    decreases if i < to then to - i else 0
  {
    hide AllCompile, Verifies, Padded, LoopsChecked;
    LpegFix.LoopsStep(c, rules, i, to, open);
    if i < to {
      var w := At(c, i);
      if Closes(c, i) {
        LoopsAre(c, rules, from, i + 1, to, open);
        LoopNext(c, rules, i, to, open);
      } else {
        var open2 := if w.IOpenCall? then i else open;
        LoopsAre(c, rules, from, i + Size(w), to, open2);
        forall j | i < j < i + Size(w) ensures At(c, j) == CharsetWord { PadWords(c, from, to, i, j); }
        LoopSkip(c, rules, i, to, open, open2);
      }
    }
  }

  /** A reference at or behind word i. */
  lemma RefersNext(c: Code, i: int, k: int, j: int)
    requires Closes(c, j) && i < k && forall q :: i < q < k ==> !At(c, q).IOpenCall?
    ensures k <= j ==> (LoopRefers(c, i, j) <==>
                        LoopRefers(c, k, j) || (At(c, i).IOpenCall? && j + At(c, j).offset <= i))
  {
    if k <= j && LoopRefers(c, i, j) {
      var q :| i <= q < j && j + At(c, j).offset <= q && At(c, q).IOpenCall?;
      if q < k { assert q == i; }
    }
    if k <= j && LoopRefers(c, k, j) {
      var q :| k <= q < j && j + At(c, j).offset <= q && At(c, q).IOpenCall?;
    }
  }

  lemma LoopNext(c: Code, rules: seq<Rule>, i: int, to: int, open: int)
    requires AllCompile(rules) && i < to && Closes(c, i) && open < i
    ensures AllLoops(c, rules, i, to, open) <==>
            (i + At(c, i).offset <= open ==> Verifies(c, rules, i + At(c, i).offset, i, true))
            && AllLoops(c, rules, i + 1, to, open)
  {
    hide AllCompile, Verifies, LoopRefers;
    forall j | i < j < to && Closes(c, j) ensures LoopRefers(c, i, j) <==> LoopRefers(c, i + 1, j) {
      RefersNext(c, i, i + 1, j);
    }
    assert !LoopRefers(c, i, i) by { NoneInside(c, i); }
    forall j | i <= j < to && Closes(c, j) ensures j == i || j >= i + 1 {}
  }

  lemma NoneInside(c: Code, i: int)
    requires Closes(c, i)
    ensures !LoopRefers(c, i, i)
  {
  }

  lemma LoopSkip(c: Code, rules: seq<Rule>, i: int, to: int, open: int, open2: int)
    requires AllCompile(rules) && i < to && !Closes(c, i) && open < i
    requires open2 == if At(c, i).IOpenCall? then i else open
    requires forall j :: i < j < i + Size(At(c, i)) ==> At(c, j) == CharsetWord
    ensures AllLoops(c, rules, i, to, open) <==> AllLoops(c, rules, i + Size(At(c, i)), to, open2)
  {
    hide AllCompile, Verifies, LoopRefers;
    var k := i + Size(At(c, i));
    forall j | i <= j < to && Closes(c, j)
      ensures j >= k
      ensures (j + At(c, j).offset <= open || LoopRefers(c, i, j)) <==>
              (j + At(c, j).offset <= open2 || LoopRefers(c, k, j))
    {
      assert j < k ==> j == i || At(c, j) == CharsetWord;
      RefersNext(c, i, k, j);
    }
  }

  // ---- whole grammars ----

  /** Rule k is seen without an error, and so is every loop of it that holds a reference, which must consume. */
  ghost predicate RuleSeen(rules: seq<Rule>, first: nat, k: nat)
    requires AllCompile(rules) && first < |rules| && k < |rules|
  {
    && See(rules, BlockOf(rules[k].patt), Start(rules, k), {}, 200) != None
    && LoopsSeen(rules, GrammarCode(rules, first), Start(rules, k), Start(rules, k + 1))
  }

  /** Every loop that is closed between two words and holds a reference is seen to consume. */
  ghost predicate LoopsSeen(rules: seq<Rule>, c: Code, from: int, to: int)
    requires AllCompile(rules)
  {
    forall j, body: Block :: from <= j < to && LoopHere(c, from, j, body) ==>
      See(rules, body, j + At(c, j).offset, {}, 200) == Some(false)
  }

  /** A loop over the words of the block `body`, with a reference in it, is closed at word j. */
  ghost predicate LoopHere(c: Code, from: int, j: int, body: Block) {
    0 <= j < |c| && Closes(c, j) && LpegTyping.LoopOver(c, j, body) && LoopRefers(c, from, j)
  }

  lemma RulePadded(rules: seq<Rule>, first: nat, k: nat)
    requires AllCompile(rules) && first < |rules| && k < |rules|
    ensures Padded(GrammarCode(rules, first), Start(rules, k), Start(rules, k + 1))
  {
    hide AllCompile, GrammarCode, Start, RuleCode;
    var c, h := GrammarCode(rules, first), GrammarTypes(rules);
    RulePlaced(rules, first, k);
    RuleFine(rules, first, k);
    forall i | Start(rules, k) <= i < Start(rules, k + 1) && Size(At(c, i)) > 1 ensures Sub(c, i, Words(At(c, i))) {
      if i < EndOf(rules, k) { assert LpegTyping.Fine(c, h, i, Start(rules, k), EndOf(rules, k)); }
    }
  }

  /** A loop as checkrule verifies it, and as it is seen. */
  lemma LoopSeen(rules: seq<Rule>, first: nat, k: nat, j: int, body: Block)
    requires AllCompile(rules) && first < |rules| && k < |rules| && Start(rules, k) <= j < Start(rules, k + 1)
    requires LoopHere(GrammarCode(rules, first), Start(rules, k), j, body)
    ensures var c := GrammarCode(rules, first); var p := j + At(c, j).offset;
            Verifies(c, rules, p, j, true) <==> See(rules, body, p, {}, 200) == Some(false)
  {
    hide AllCompile, GrammarCode, Start, Verifies, Made, See, Flat, Shape, Valid, Backed;
    var c := GrammarCode(rules, first);
    var g := Verifying(c, rules, j + At(c, j).offset, j);
    LoopCalled(rules, first, k, j);
    SubPlace(c, g.p0, Flat(body));
    SeenExactly(g, body);
  }

  lemma LoopFound(rules: seq<Rule>, first: nat, k: nat, j: int)
    requires AllCompile(rules) && first < |rules| && k < |rules| && Start(rules, k) <= j < Start(rules, k + 1)
    requires Closes(GrammarCode(rules, first), j)
    ensures var c := GrammarCode(rules, first);
            0 <= j < |c| && j + c[j].offset > 0 && exists body: Block :: LpegTyping.LoopOver(c, j, body)
  {
    hide AllCompile, GrammarCode, Start, Flat, Shape, Valid, Backed, RuleCode;
    var c := GrammarCode(rules, first);
    RulePlaced(rules, first, k);
    RuleJump(rules, first, k, j);
    var body: Block :| LpegTyping.LoopOver(c, j, body);
    SubPlace(c, j + c[j].offset, Flat(body));
  }

  lemma LoopsExactly(rules: seq<Rule>, first: nat, k: nat)
    requires AllCompile(rules) && first < |rules| && k < |rules|
    ensures var c, from, to := GrammarCode(rules, first), Start(rules, k), Start(rules, k + 1);
            AllLoops(c, rules, from, to, 0) <==> LoopsSeen(rules, c, from, to)
  {
    hide AllCompile, GrammarCode, Start, Verifies, See, LoopRefers, LpegTyping.LoopOver;
    var c, from, to := GrammarCode(rules, first), Start(rules, k), Start(rules, k + 1);
    forall j | from <= j < to && Closes(c, j)
      ensures j + At(c, j).offset > 0
      ensures LoopRefers(c, from, j) ==> exists body: Block :: LoopHere(c, from, j, body)
    {
      LoopFound(rules, first, k, j);
      var body: Block :| LpegTyping.LoopOver(c, j, body);
      if LoopRefers(c, from, j) { assert LoopHere(c, from, j, body); }
    }
    forall j, body: Block | from <= j < to && LoopHere(c, from, j, body)
      ensures Verifies(c, rules, j + At(c, j).offset, j, true) <==>
              See(rules, body, j + At(c, j).offset, {}, 200) == Some(false)
    {
      LoopSeen(rules, first, k, j, body);
    }
  }

  lemma RuleExactly(rules: seq<Rule>, first: nat, k: nat)
    requires AllCompile(rules) && first < |rules| && k < |rules|
    ensures RuleChecked(GrammarCode(rules, first), rules, k) <==> RuleSeen(rules, first, k)
  {
    hide AllCompile, GrammarCode, Start, Verifies, See, LoopsChecked, EndOf, LoopsSeen, AllLoops, BlockOf, RuleChecked;
    var c, from, to := GrammarCode(rules, first), Start(rules, k), Start(rules, k + 1);
    LpegFix.RuleParts(c, rules, k);
    RulePadded(rules, first, k);
    FromTwo(rules, k);
    LoopsAre(c, rules, from, from, to, 0);
    RuleVerifies(rules, first, k);
    LoopsExactly(rules, first, k);
  }

  lemma FromTwo(rules: seq<Rule>, k: nat)
    requires AllCompile(rules) && k <= |rules|
    ensures Start(rules, k) >= 2
  {
    hide AllCompile;
  }

  lemma RuleVerifies(rules: seq<Rule>, first: nat, k: nat)
    requires AllCompile(rules) && first < |rules| && k < |rules|
    ensures var c, e := GrammarCode(rules, first), Start(rules, k + 1) - 1;
            (Verifies(c, rules, Start(rules, k), e, true) || Verifies(c, rules, Start(rules, k), e, false)) <==>
            See(rules, BlockOf(rules[k].patt), Start(rules, k), {}, 200) != None
  {
    hide AllCompile, GrammarCode, Start, Verifies, Made, See, Flat, Shape, Valid, Backed, BlockOf, RuleCode;
    var c := GrammarCode(rules, first);
    var g := Verifying(c, rules, Start(rules, k), EndOf(rules, k));
    var b := BlockOf(rules[k].patt);
    RulePlaced(rules, first, k);
    RuleCalled(rules, first, k);
    CalledProper(g);
    RuleFacts(g, k);
    SeenExactly(g, b);
    var v := See(rules, b, Start(rules, k), {}, 200);
    if v != None { assert v == Some(!!v.value); }
  }

  /** Every reference names a rule. */
  ghost predicate AllNamed(rules: seq<Rule>, first: nat)
    requires AllCompile(rules) && first < |rules|
  {
    forall i :: 0 <= i < |GrammarCode(rules, first)| && GrammarCode(rules, first)[i].IOpenCall? ==>
      exists k :: 0 <= k < |rules| && rules[k].key == GrammarCode(rules, first)[i].key
  }

  lemma {:induction false} NamedExactly(rules: seq<Rule>, key: int, from: nat)
    requires from <= |rules|
    ensures Find(rules, key, from) < |rules| <==> exists k :: from <= k < |rules| && rules[k].key == key
    decreases |rules| - from
  {
    if from < |rules| { NamedExactly(rules, key, from + 1); }
  }

  /**
    fix_l accepts a grammar exactly when its rules compile and fit, every rule is seen without an error,
    every loop of it that holds a reference is seen to consume, and every reference names a rule.
   */
  lemma AcceptsExactly(rules: seq<Rule>, first: nat)
    ensures Accepted(rules, first) <==>
            && AllCompile(rules) && first < |rules| && LpegGrammar.Total(rules) < 32756
            && (forall k :: 0 <= k < |rules| ==> RuleSeen(rules, first, k)) && AllNamed(rules, first)
  {
    hide AllCompile, GrammarCode, RuleChecked, RuleSeen, Start;
    if AllCompile(rules) && first < |rules| {
      forall k | 0 <= k < |rules|
        ensures RuleChecked(GrammarCode(rules, first), rules, k) <==> RuleSeen(rules, first, k)
      {
        RuleExactly(rules, first, k);
      }
      RoomAtStart(rules);
      forall key: int
        ensures Position(rules, key) != 0 <==> exists k :: 0 <= k < |rules| && rules[k].key == key
      {
        NamedExactly(rules, key, 0);
      }
    }
  }

  /** A rule that starts with a reference to itself is refused. */
  lemma SelfRefused(rules: seq<Rule>, first: nat, k: nat)
    requires AllCompile(rules) && k < |rules| && DistinctKeys(rules)
    requires RuleCode(rules, k) != [] && RuleCode(rules, k)[0] == IOpenCall(rules[k].key)
    ensures !Accepted(rules, first)
  {
    hide AllCompile, RuleSeen, GrammarCode, Accepted, Start, BlockOf, RuleCode, Flat, ItemWords, See;
    AcceptsExactly(rules, first);
    if first < |rules| {
      var b, w := BlockOf(rules[k].patt), Start(rules, k);
      RuleSizes(rules, first, k);
      GoodShape(b);
      FlatEmpty(b);
      ItemHead(b);
      FindKey(rules, rules[k].key, 0);
      SeeIs(rules, b, w, {}, 200);
      SeeIs(rules, b, w, {} + {w + 1}, 199);
      SeePrim(rules, b, w, {}, 200);
      SeePrim(rules, b, w, {} + {w + 1}, 199);
      NotSeen(rules, first, k);
    }
  }

  lemma GoodShape(b: Block)
    requires Good(b)
    ensures Shape(b)
  {
  }

  lemma NotSeen(rules: seq<Rule>, first: nat, k: nat)
    requires AllCompile(rules) && first < |rules| && k < |rules|
    requires See(rules, BlockOf(rules[k].patt), Start(rules, k), {}, 200).None?
    ensures !RuleSeen(rules, first, k)
  {
    hide AllCompile, GrammarCode, Start, BlockOf, See;
  }
}
