/**
  Every call of verify that checkrule makes comes to an end, and none of its assertions fails:
  it answers, or raises one of the three errors that it is there to raise.
 */
module LpegCheckrule {
  import opened LpegCode
  import opened LpegMachine
  import opened LpegPeg
  import opened LpegBlock
  import opened LpegExec
  import opened LpegRun
  import opened LpegBuild
  import opened LpegShape
  import opened LpegVerify
  import opened LpegTyping
  import opened LpegCorrect
  import opened LpegGrammar

  // ---- the calls of verify ----

  /** A call of verify on code c, from word p0 to word e. */
  datatype Verifying = Verifying(c: Code, rules: seq<Rule>, p0: int, e: int)

  /** The code of rule k stands in c with its return. */
  ghost predicate RuleHere(c: Code, rules: seq<Rule>, k: nat)
    requires AllCompile(rules) && k < |rules|
  {
    && var b := BlockOf(rules[k].patt);
    && Good(b) && Sub(c, Start(rules, k), Flat(b)) && Clear(c, Start(rules, k))
    && Start(rules, k) > 0 && EndOf(rules, k) == Start(rules, k) + |Flat(b)| && At(c, EndOf(rules, k)).IRet?
  }

  ghost predicate IsRule(rules: seq<Rule>, k: int, p0: int, e: int)
    requires AllCompile(rules)
  {
    0 <= k < |rules| && p0 == Start(rules, k) && e == EndOf(rules, k)
  }

  /** The call verifies the body of a rule or that of a loop. */
  ghost predicate Proper(g: Verifying) {
    && AllCompile(g.rules) && (forall k :: 0 <= k < |g.rules| ==> RuleHere(g.c, g.rules, k))
    && ((exists k :: IsRule(g.rules, k, g.p0, g.e)) || VerifiesLoop(g))
  }

  ghost predicate VerifiesLoop(g: Verifying) {
    0 <= g.e < |g.c| && g.c[g.e].IPartialCommit? && g.c[g.e].offset < 0 && g.p0 == g.e + g.c[g.e].offset
  }

  ghost function Next(g: Verifying, st: Scan): Scan
    requires AllCompile(g.rules)
  {
    VTurn(g.c, g.rules, g.e, st)
  }

  ghost function After(g: Verifying, st: Scan, n: nat): Scan
    requires AllCompile(g.rules)
  {
    VTurns(g.c, g.rules, g.e, st, n)
  }

  /** verify has answered, or raised an error of its own. */
  predicate Done(st: Scan) {
    !st.Going? && !st.BadPattern?
  }

  ghost predicate Ends(g: Verifying, st: Scan)
    requires AllCompile(g.rules)
  {
    exists n: nat :: Done(After(g, st, n))
  }

  /** The call comes to this state. */
  ghost predicate Comes(g: Verifying, st: Scan)
    requires AllCompile(g.rules)
  {
    exists n: nat :: After(g, Going(g.p0, []), n) == st
  }

  /** If the call comes to this state, it ends. */
  ghost predicate Safe(g: Verifying, st: Scan)
    requires AllCompile(g.rules)
  {
    Comes(g, st) ==> Ends(g, st)
  }

  lemma SafeDone(g: Verifying, st: Scan)
    requires AllCompile(g.rules) && Done(st)
    ensures Safe(g, st)
  {
    hide AllCompile;
    assert After(g, st, 0) == st;
  }

  lemma OneMore(g: Verifying, st: Scan, n: nat)
    requires AllCompile(g.rules)
    ensures After(g, st, n + 1) == Next(g, After(g, st, n)) == After(g, Next(g, st), n)
  {
    hide AllCompile, VTurn;
    TurnsAdd(g.c, g.rules, g.e, st, n, 1);
  }

  lemma SafeNext(g: Verifying, st: Scan)
    requires AllCompile(g.rules) && Safe(g, Next(g, st))
    ensures Safe(g, st)
  {
    hide AllCompile, After, Next;
    if Comes(g, st) {
      var n: nat :| After(g, Going(g.p0, []), n) == st;
      OneMore(g, Going(g.p0, []), n);
      var m: nat :| Done(After(g, Next(g, st), m));
      OneMore(g, st, m);
    }
  }

  // ---- the same call under more saved entries ----

  lemma {:induction false} BacktrackedOver(base: seq<VEntry>, back: seq<VEntry>)
    requires Backtracked(back).Going?
    ensures var st := Backtracked(back); Backtracked(base + back) == Going(st.p, base + st.back)
    decreases |back|
  {
    var all := base + back;
    assert back != [] && Top(all) == Top(back) && Rest(all) == base + Rest(back);
    if Top(back).isCall { BacktrackedOver(base, Rest(back)); }
  }

  lemma RestOver(base: seq<VEntry>, back: seq<VEntry>, e: VEntry)
    ensures base + (back + [e]) == (base + back) + [e]
    ensures back != [] ==> Rest(base + back) == base + Rest(back) && Top(base + back) == Top(back)
  {
    if back != [] { assert Rest(base + back) == base + Rest(back); }
  }

  /** A turn over more entries does the same above them, or raises an error. */
  lemma NextOver(g: Verifying, p: int, back: seq<VEntry>, base: seq<VEntry>)
    requires AllCompile(g.rules) && Next(g, Going(p, back)).Going?
    ensures var st, r := Next(g, Going(p, back)), Next(g, Going(p, base + back));
            Done(r) || r == Going(st.p, base + st.back)
  {
    hide AllCompile, Position;
    var i := At(g.c, p);
    RestOver(base, back, VEntry(true, p + 1));
    if i.IChoice? { RestOver(base, back, VEntry(false, p + i.offset)); }
    if Backtracked(back).Going? { BacktrackedOver(base, back); }
  }

  lemma {:induction false} AfterOver(g: Verifying, p: int, back: seq<VEntry>, base: seq<VEntry>, n: nat)
      returns (m: nat)
    requires AllCompile(g.rules) && After(g, Going(p, back), n).Going?
    ensures var st, r := After(g, Going(p, back), n), After(g, Going(p, base + back), m);
            Done(r) || (m == n && r == Going(st.p, base + st.back))
    decreases n
  {
    hide AllCompile, Next, VTurn;
    m := 0;
    if n > 0 {
      var st := Next(g, Going(p, back));
      var r := Next(g, Going(p, base + back));
      AfterFirst(g, Going(p, back), n - 1);
      if !st.Going? { Stopped(g.c, g.rules, g.e, st, n - 1); }
      NextOver(g, p, back, base);
      if Done(r) {
        m := 1;
        AfterFirst(g, Going(p, base + back), 0);
        assert After(g, r, 0) == r;
      } else {
        var m2 := AfterOver(g, st.p, st.back, base, n - 1);
        m := m2 + 1;
        AfterFirst(g, Going(p, base + back), m2);
      }
    }
  }

  lemma AfterFirst(g: Verifying, st: Scan, n: nat)
    requires AllCompile(g.rules)
    ensures After(g, st, n + 1) == After(g, Next(g, st), n)
  {
    hide AllCompile, VTurn;
  }

  /** No more entries are saved than there is room for. */
  predicate Small(st: Scan) {
    st.Going? ==> |st.back| <= MAX_BACK_VER
  }

  lemma {:induction false} BacktrackedSmall(back: seq<VEntry>)
    requires |back| <= MAX_BACK_VER
    ensures Small(Backtracked(back))
    decreases |back|
  {
    if back != [] && Top(back).isCall { BacktrackedSmall(Rest(back)); }
  }

  lemma {:induction false} AfterSmall(g: Verifying, st: Scan, n: nat)
    requires AllCompile(g.rules) && Small(st)
    ensures Small(After(g, st, n))
    decreases n
  {
    hide AllCompile, Position;
    if n > 0 {
      if st.Going? { BacktrackedSmall(st.back); }
      AfterFirst(g, st, n - 1);
      AfterSmall(g, Next(g, st), n - 1);
    }
  }

  /**
    A call that comes back to its first word with entries saved would do the same again on top
    of them, and again, until it raises an error.
   */
  lemma {:induction false} Recurs(g: Verifying, saved: seq<VEntry>, n: nat, back: seq<VEntry>)
    requires AllCompile(g.rules) && After(g, Going(g.p0, []), n) == Going(g.p0, saved) && saved != []
             && |back| <= MAX_BACK_VER
    ensures Ends(g, Going(g.p0, back))
    decreases MAX_BACK_VER - |back|
  {
    hide AllCompile, After;
    assert back + [] == back;
    var m := AfterOver(g, g.p0, [], back, n);
    if !Done(After(g, Going(g.p0, back), m)) {
      AfterSmall(g, Going(g.p0, back), n);
      Recurs(g, saved, n, back + saved);
      var k: nat :| Done(After(g, Going(g.p0, back + saved), k));
      AfterMore(g, Going(g.p0, back), n, k);
    }
  }

  lemma AfterMore(g: Verifying, st: Scan, n: nat, m: nat)
    requires AllCompile(g.rules)
    ensures After(g, st, n + m) == After(g, After(g, st, n), m)
  {
    hide AllCompile;
    TurnsAdd(g.c, g.rules, g.e, st, n, m);
  }

  lemma SafeAgain(g: Verifying, back: seq<VEntry>)
    requires AllCompile(g.rules) && back != []
    ensures Safe(g, Going(g.p0, back))
  {
    hide AllCompile, After;
    if Comes(g, Going(g.p0, back)) {
      var n: nat :| After(g, Going(g.p0, []), n) == Going(g.p0, back);
      AfterSmall(g, Going(g.p0, []), n);
      Recurs(g, back, n, back);
    }
  }

  // ---- single words ----

  /** verify stops at the return of a rule or at the end of a loop. */
  lemma StopKind(g: Verifying)
    requires Proper(g)
    ensures At(g.c, g.e).IRet? || VerifiesLoop(g)
  {
    hide AllCompile;
    if !VerifiesLoop(g) {
      var k :| IsRule(g.rules, k, g.p0, g.e);
      assert RuleHere(g.c, g.rules, k);
    }
  }

  /** verify does not stop at word p. */
  lemma NoStop(g: Verifying, p: int)
    requires Proper(g) && !At(g.c, p).IRet? && (At(g.c, p).IPartialCommit? ==> At(g.c, p).offset > 0)
    ensures p != g.e
  {
    hide Proper;
    StopKind(g);
  }

  lemma GoesOn(g: Verifying, p: int, q: int, back: seq<VEntry>)
    requires AllCompile(g.rules) && Next(g, Going(p, back)) == Going(q, back) && Safe(g, Going(q, back))
    ensures Safe(g, Going(p, back))
  {
    hide *;
    SafeNext(g, Going(p, back));
  }

  lemma STest(g: Verifying, p: int, t: Check, offset: int, back: seq<VEntry>)
    requires Proper(g) && At(g.c, p) == ICheck(t, offset) && offset != 0 && !At(g.c, p + CheckSize(t)).IBack?
    requires Safe(g, Going(p + offset, back))
    ensures Safe(g, Going(p, back))
  {
    hide AllCompile, Safe;
    NoStop(g, p);
    GoesOn(g, p, p + offset, back);
  }

  lemma SLooks(g: Verifying, p: int, t: Check, offset: int, back: seq<VEntry>)
    requires Proper(g) && At(g.c, p) == ICheck(t, offset) && At(g.c, p + CheckSize(t)).IBack?
    requires Safe(g, Going(p + CheckSize(t) + 1, back))
    ensures Safe(g, Going(p, back))
  {
    hide AllCompile, Safe;
    NoStop(g, p);
    GoesOn(g, p, p + CheckSize(t) + 1, back);
  }

  lemma SCheck(g: Verifying, p: int, t: Check, back: seq<VEntry>)
    requires Proper(g) && At(g.c, p) == ICheck(t, 0) && !At(g.c, p + CheckSize(t)).IBack? && Safe(g, Backtracked(back))
    ensures Safe(g, Going(p, back))
  {
    hide AllCompile, Safe;
    NoStop(g, p);
    SafeNext(g, Going(p, back));
  }

  lemma SJmp(g: Verifying, p: int, offset: int, back: seq<VEntry>)
    requires Proper(g) && At(g.c, p) == IJmp(offset) && Safe(g, Going(p + offset, back))
    ensures Safe(g, Going(p, back))
  {
    hide AllCompile, Safe;
    NoStop(g, p);
    GoesOn(g, p, p + offset, back);
  }

  lemma SStraight(g: Verifying, p: int, i: Cell, back: seq<VEntry>)
    requires Proper(g) && At(g.c, p) == i && (i.ISpan? || i.ICapture?) && Safe(g, Going(p + Size(i), back))
    ensures Safe(g, Going(p, back))
  {
    hide AllCompile, Safe;
    NoStop(g, p);
    GoesOn(g, p, p + Size(i), back);
  }

  lemma SFail(g: Verifying, p: int, back: seq<VEntry>)
    requires Proper(g) && (At(g.c, p).IFailTwice? || (At(g.c, p).IFail? && !At(g.c, p - 1).IBackCommit?))
             && Safe(g, Backtracked(back))
    ensures Safe(g, Going(p, back))
  {
    hide AllCompile, Safe;
    NoStop(g, p);
    SafeNext(g, Going(p, back));
  }

  lemma SAndFail(g: Verifying, p: int, back: seq<VEntry>)
    requires Proper(g) && At(g.c, p).IFail? && At(g.c, p - 1).IBackCommit? && Safe(g, Going(p + 1, back))
    ensures Safe(g, Going(p, back))
  {
    hide AllCompile, Safe;
    NoStop(g, p);
    GoesOn(g, p, p + 1, back);
  }

  lemma SChoice(g: Verifying, p: int, offset: int, aux: nat, back: seq<VEntry>)
    requires Proper(g) && At(g.c, p) == IChoice(offset, aux)
    requires |back| < MAX_BACK_VER ==> Safe(g, Going(p + 1, back + [VEntry(false, p + offset)]))
    ensures Safe(g, Going(p, back))
  {
    hide AllCompile, Safe;
    NoStop(g, p);
    if |back| >= MAX_BACK_VER { SafeDone(g, TooMany); }
    SafeNext(g, Going(p, back));
  }

  lemma Unsaved(back: seq<VEntry>, e: VEntry)
    ensures var over := back + [e]; over != [] && Rest(over) == back && Top(over) == e
    ensures Backtracked(back + [e]) == if e.isCall then Backtracked(back) else Going(e.p, back)
  {
    assert Rest(back + [e]) == back;
  }

  lemma SCommit(g: Verifying, p: int, offset: int, e: VEntry, back: seq<VEntry>)
    requires Proper(g) && (At(g.c, p) == ICommit(offset) || At(g.c, p) == IBackCommit(offset)) && offset > 0
    requires Safe(g, Going(p + offset, back))
    ensures Safe(g, Going(p, back + [e]))
  {
    hide AllCompile, Safe;
    NoStop(g, p);
    Unsaved(back, e);
    SafeNext(g, Going(p, back + [e]));
  }

  /** The end of a loop is passed, unless it is the end of the call, which starts at the loop. */
  lemma SLoopEnd(g: Verifying, p: int, n: int, e: VEntry, back: seq<VEntry>)
    requires Proper(g) && n >= 0 && At(g.c, p) == IPartialCommit(-n) && p != g.e && Safe(g, Going(p + 1, back))
    ensures Safe(g, Going(p, back + [e]))
  {
    hide AllCompile, Safe;
    Unsaved(back, e);
    SafeNext(g, Going(p, back + [e]));
  }

  lemma SPartial(g: Verifying, p: int, back: seq<VEntry>)
    requires Proper(g) && At(g.c, p) == IPartialCommit(1) && back != [] && Safe(g, Going(p + 1, back))
    ensures Safe(g, Going(p, back))
  {
    hide AllCompile, Safe;
    NoStop(g, p);
    GoesOn(g, p, p + 1, back);
  }

  lemma SRet(g: Verifying, p: int, e: VEntry, back: seq<VEntry>)
    requires Proper(g) && At(g.c, p).IRet? && p != g.e && Safe(g, Going(e.p, back))
    ensures Safe(g, Going(p, back + [e]))
  {
    hide AllCompile, Safe;
    Unsaved(back, e);
    SafeNext(g, Going(p, back + [e]));
  }

  /** An open call raises an error or leads to a rule. */
  lemma SOpen(g: Verifying, p: int, back: seq<VEntry>) returns (k: nat)
    requires Proper(g) && At(g.c, p).IOpenCall?
    ensures || Safe(g, Going(p, back))
            || (k < |g.rules| && |back| < MAX_BACK_VER
              && Next(g, Going(p, back)) == Going(Start(g.rules, k), back + [VEntry(true, p + 1)]))
  {
    hide AllCompile, Safe;
    NoStop(g, p);
    k := Find(g.rules, At(g.c, p).key, 0);
    var st := Next(g, Going(p, back));
    if !st.Going? {
      SafeDone(g, st);
      SafeNext(g, Going(p, back));
    }
  }

  // ---- blocks ----

  /** The call is safe wherever control leaves a part of the code that ends at word z with these entries saved. */
  ghost predicate Exits(g: Verifying, z: int, d: nat, back: seq<VEntry>)
    requires AllCompile(g.rules)
  {
    Safe(g, Going(z, back)) && Safe(g, Going(z + d, back)) && Safe(g, Backtracked(back)) && |back| <= MAX_BACK_VER
  }

  lemma ExitSafe(g: Verifying, z: int, k: Block, x: nat, d: nat, back: seq<VEntry>)
    requires AllCompile(g.rules) && Exits(g, z, ItemSlide(k, d), back) && GoodExit(x, k, d)
    ensures Safe(g, Going(z + x, back))
  {
    hide AllCompile, Safe;
  }

  lemma ExitsOf(g: Verifying, z: int, d: nat, back: seq<VEntry>)
    requires AllCompile(g.rules) && Exits(g, z, d, back)
    ensures Safe(g, Going(z, back)) && Safe(g, Going(z + d, back)) && Safe(g, Backtracked(back))
            && |back| <= MAX_BACK_VER
  {
    hide AllCompile, Safe;
  }

  lemma {:induction false} SBlock(g: Verifying, p: int, b: Block, d: nat, back: seq<VEntry>)
    requires Proper(g) && Sub(g.c, p, Flat(b)) && Shape(b) && Valid(b, d) && Backed(b, false) && Clear(g.c, p)
    requires !At(g.c, p + |Flat(b)|).IBack? && Exits(g, p + |Flat(b)|, d, back)
    ensures Safe(g, Going(p, back))
    decreases Left(back), b, 4
  {
    hide *;
    ProperRules(g);
    if b.End? {
      NoWords();
      ExitsOf(g, p, d, back);
    } else if b.Prim? && b.i.ICheck? {
      SCheckBlock(g, p, b, d, back);
    } else {
      FlatSplit(g.c, p, b);
      var z := p + |ItemWords(b)|;
      TailFacts(b, d);
      NextWord(g.c, z, b.k);
      LastClear(g.c, p, b);
      if b.k.End? { NoWords(); } else { SBlock(g, z, b.k, d, back); }
      ExitsInside(g, z, b.k, d, back);
      SItem(g, p, z, b, d, back);
    }
  }

  lemma ProperRules(g: Verifying)
    requires Proper(g)
    ensures AllCompile(g.rules)
  {
  }

  /** From the exits of a block to those of its first item. */
  lemma ExitsInside(g: Verifying, z: int, k: Block, d: nat, back: seq<VEntry>)
    requires AllCompile(g.rules) && Exits(g, z + |Flat(k)|, d, back) && (k.End? ==> Flat(k) == [])
             && (!k.End? ==> Safe(g, Going(z, back)))
    ensures Exits(g, z, ItemSlide(k, d), back)
  {
    hide AllCompile, Safe, Flat;
  }

  /** A check fails, unless a step back behind it makes it an and-predicate. */
  lemma {:induction false} SCheckBlock(g: Verifying, p: int, b: Block, d: nat, back: seq<VEntry>)
    requires Proper(g) && b.Prim? && b.i.ICheck? && Sub(g.c, p, Flat(b)) && Shape(b) && Valid(b, d) && Backed(b, false)
             && Clear(g.c, p)
    requires !At(g.c, p + |Flat(b)|).IBack? && Exits(g, p + |Flat(b)|, d, back)
    ensures Safe(g, Going(p, back))
    decreases Left(back), b, 3
  {
    hide *;
    ProperRules(g);
    ExitsOf(g, p + |Flat(b)|, d, back);
    FlatSplit(g.c, p, b);
    TailFacts(b, d);
    ItemHead(b);
    CheckWord(g.c, p, b);
    var z := p + |ItemWords(b)|;
    NextWord(g.c, z, b.k);
    if StartsWithBack(b.k) {
      BackFirst(b.k);
      FlatSplit(g.c, z, b.k);
      BackWord(g.c, z, b.k, d);
      SBlock(g, z + 1, b.k.k, d, back);
      SLooks(g, p, b.i.ck, 0, back);
    } else {
      SCheck(g, p, b.i.ck, back);
    }
  }

  lemma BackFirst(b: Block)
    requires StartsWithBack(b)
    ensures !b.End?
  {
  }

  lemma CheckWord(c: Code, p: int, b: Block)
    requires b.Prim? && b.i.ICheck? && Sub(c, p, ItemWords(b)) && Shape(b)
    ensures At(c, p) == ICheck(b.i.ck, 0) && |ItemWords(b)| == CheckSize(b.i.ck) && !At(c, p).IBackCommit?
  {
    hide Flat;
    PrimItemWords(b);
    SubAt(c, p, ItemWords(b), 0);
  }

  /** A step back, and the block behind it. */
  lemma BackWord(c: Code, z: int, b: Block, d: nat)
    requires StartsWithBack(b) && Shape(b) && Valid(b, d) && Backed(b, true) && Sub(c, z, ItemWords(b))
    requires |Flat(b)| == |ItemWords(b)| + |Flat(b.k)|
    ensures |ItemWords(b)| == 1 && |Flat(b)| == 1 + |Flat(b.k)| && Clear(c, z + 1) && At(c, z).IBack?
    ensures Shape(b.k) && Valid(b.k, d) && Backed(b.k, false)
  {
    hide Flat;
    BackTail(b, d);
    PrimItemWords(b);
    SubAt(c, z, ItemWords(b), 0);
  }

  /** What stands between the parts of the first item. */
  ghost predicate ItemSafe(g: Verifying, p: int, z: int, b: Block, d: nat, back: seq<VEntry>) {
    && Proper(g) && !b.End? && !b.Prim? && ItemAt(g.c, p, z, b) && Shape(b) && Valid(b, d) && Backed(b, false)
    && !At(g.c, z).IBack? && Exits(g, z, ItemSlide(b.k, d), back)
  }

  lemma {:induction false} SItem(g: Verifying, p: int, z: int, b: Block, d: nat, back: seq<VEntry>)
    requires Proper(g) && !b.End? && !(b.Prim? && b.i.ICheck?) && Sub(g.c, p, ItemWords(b)) && z == p + |ItemWords(b)|
    requires Shape(b) && Valid(b, d) && Backed(b, false) && Clear(g.c, p) && !At(g.c, z).IBack?
             && Exits(g, z, ItemSlide(b.k, d), back)
    ensures Safe(g, Going(p, back))
    decreases Left(back), b, 3
  {
    hide *;
    if b.Prim? {
      SPrim(g, p, z, b, d, back);
    } else {
      Layout(g.c, p, b);
      ItemSafeIs(g, p, z, b, d, back);
      match b
      case TestJmp(_, _, _, _, _) => STestJmp(g, p, z, b, d, back);
      case Union(_, _, _, _, _, _, _, _) => SUnion(g, p, z, b, d, back);
      case Not(_, _, _, _) => SNot(g, p, z, b, d, back);
      case NotHead(_, _, _, _) => SHead(g, p, z, b, d, back);
      case And(_, _, _) => SAnd(g, p, z, b, d, back);
      case Loop(_, _, _) => SLoop(g, p, z, b, d, back);
      case LoopHead(_, _, _, _) => SHead(g, p, z, b, d, back);
      case OptHead(_, _, _, _, _) => SHead(g, p, z, b, d, back);
    }
  }

  lemma ItemSafeIs(g: Verifying, p: int, z: int, b: Block, d: nat, back: seq<VEntry>)
    requires Proper(g) && !b.End? && !b.Prim? && ItemAt(g.c, p, z, b) && Shape(b) && Valid(b, d) && Backed(b, false)
    requires !At(g.c, z).IBack? && Exits(g, z, ItemSlide(b.k, d), back)
    ensures ItemSafe(g, p, z, b, d, back)
  {
    hide AllCompile, Safe, ItemAt, Shape, Valid, Backed;
  }

  lemma {:induction false} SPrim(g: Verifying, p: int, z: int, b: Block, d: nat, back: seq<VEntry>)
    requires Proper(g) && b.Prim? && !b.i.ICheck? && Sub(g.c, p, ItemWords(b)) && z == p + |ItemWords(b)|
    requires Shape(b) && Backed(b, false) && Clear(g.c, p) && Exits(g, z, ItemSlide(b.k, d), back)
    ensures Safe(g, Going(p, back))
    decreases Left(back), b, 2
  {
    hide *;
    ProperRules(g);
    ExitsOf(g, z, ItemSlide(b.k, d), back);
    PrimWord(g.c, p, b);
    if b.i.IOpenCall? {
      var k := SOpen(g, p, back);
      if !Safe(g, Going(p, back)) {
        LeftLess(back, VEntry(true, p + 1));
        SRule(g, k, p + 1, back);
        SafeNext(g, Going(p, back));
      }
    } else if b.i.IFail? {
      SFail(g, p, back);
    } else {
      SStraight(g, p, b.i, back);
    }
  }

  lemma PrimWord(c: Code, p: int, b: Block)
    requires b.Prim? && !b.i.ICheck? && Sub(c, p, ItemWords(b)) && Shape(b) && Backed(b, false) && Clear(c, p)
    ensures At(c, p) == b.i && |ItemWords(b)| == Size(b.i)
            && (b.i.ISpan? || b.i.ICapture? || b.i.IFail? || b.i.IOpenCall?)
    ensures b.i.IFail? ==> !At(c, p - 1).IBackCommit?
    ensures b.i.IOpenCall? ==> Size(b.i) == 1
  {
    hide Flat;
    PrimItemWords(b);
    SubAt(c, p, ItemWords(b), 0);
  }

  /** How many more entries can be saved. */
  function Left(back: seq<VEntry>): nat {
    if |back| <= MAX_BACK_VER then MAX_BACK_VER - |back| else 0
  }

  lemma LeftLess(back: seq<VEntry>, e: VEntry)
    requires |back| < MAX_BACK_VER
    ensures Left(back + [e]) < Left(back) && |back + [e]| <= MAX_BACK_VER
  {
  }

  /** A rule called with word w as its return. */
  lemma {:induction false} SRule(g: Verifying, k: nat, w: int, back: seq<VEntry>)
    requires Proper(g) && AllCompile(g.rules) && k < |g.rules| && |back| < MAX_BACK_VER
    requires Safe(g, Going(w, back)) && Safe(g, Backtracked(back))
    ensures Safe(g, Going(Start(g.rules, k), back + [VEntry(true, w)]))
    decreases Left(back + [VEntry(true, w)]), BlockOf(g.rules[k].patt), 5
  {
    hide *;
    var e := VEntry(true, w);
    Unsaved(back, e);
    if Start(g.rules, k) == g.p0 {
      SafeAgain(g, back + [e]);
    } else {
      RuleFacts(g, k);
      SRet(g, EndOf(g.rules, k), e, back);
      LeftLess(back, e);
      ExitsHere(g, EndOf(g.rules, k), back + [e]);
      SBlock(g, Start(g.rules, k), BlockOf(g.rules[k].patt), 0, back + [e]);
    }
  }

  lemma ExitsHere(g: Verifying, z: int, back: seq<VEntry>)
    requires AllCompile(g.rules) && Safe(g, Going(z, back)) && Safe(g, Backtracked(back)) && |back| <= MAX_BACK_VER
    ensures Exits(g, z, 0, back)
  {
    hide AllCompile, Safe;
  }

  lemma RuleFacts(g: Verifying, k: nat)
    requires Proper(g) && AllCompile(g.rules) && k < |g.rules|
    ensures var b, p, z := BlockOf(g.rules[k].patt), Start(g.rules, k), EndOf(g.rules, k);
            && Sub(g.c, p, Flat(b)) && Shape(b) && Valid(b, 0) && Backed(b, false) && Clear(g.c, p)
            && z == p + |Flat(b)| && At(g.c, z).IRet? && !At(g.c, z).IBack?
            && (z == g.e ==> p == g.p0)
  {
    hide AllCompile, Flat, BlockOf, Start, RuleCode;
    assert RuleHere(g.c, g.rules, k);
    GoodOf(BlockOf(g.rules[k].patt));
    if EndOf(g.rules, k) == g.e && !VerifiesLoop(g) {
      var k2 :| IsRule(g.rules, k2, g.p0, g.e);
      OneRule(g.rules, k, k2);
    }
  }

  lemma OneRule(rules: seq<Rule>, k: nat, k2: nat)
    requires AllCompile(rules) && k < |rules| && k2 < |rules| && EndOf(rules, k) == EndOf(rules, k2)
    ensures k == k2
  {
    hide AllCompile;
    if k < k2 { EndsGrow(rules, k, k2); }
    if k2 < k { EndsGrow(rules, k2, k); }
  }

  lemma {:induction false} EndsGrow(rules: seq<Rule>, k: nat, k2: nat)
    requires AllCompile(rules) && k < k2 < |rules|
    ensures EndOf(rules, k) < Start(rules, k2)
    decreases k2
  {
    hide AllCompile, Compile;
    if k < k2 - 1 { EndsGrow(rules, k, k2 - 1); }
  }

  /** The last alternative of an item, entered at its start or, when empty, at the item's exit. */
  lemma {:induction false} SAlternative(g: Verifying, pe: int, z: int, els: Block, x: nat, k: Block, d: nat,
      back: seq<VEntry>)
    requires Proper(g) && Sub(g.c, pe, Flat(els)) && pe + |Flat(els)| == z && Shape(els) && Valid(els, ItemSlide(k, d))
             && Backed(els, false)
    requires !At(g.c, z).IBack? && Clear(g.c, pe) && GoodExit(x, k, d) && Exits(g, z, ItemSlide(k, d), back)
    ensures AllCompile(g.rules) && Safe(g, Going(pe + Exit(els, x), back))
    decreases Left(back), els, 5
  {
    hide *;
    ProperRules(g);
    ExitIs(els, x);
    if els.End? {
      NoWords();
      ExitSafe(g, z, k, x, d, back);
    } else {
      SBlock(g, pe, els, ItemSlide(k, d), back);
    }
  }

  lemma ItemOf(g: Verifying, p: int, z: int, b: Block, d: nat, back: seq<VEntry>)
    requires ItemSafe(g, p, z, b, d, back)
    ensures AllCompile(g.rules) && Proper(g) && ItemAt(g.c, p, z, b) && Shape(b) && Valid(b, d) && Backed(b, false)
            && !At(g.c, z).IBack?
    ensures Exits(g, z, ItemSlide(b.k, d), back)
    ensures Safe(g, Going(z, back)) && Safe(g, Backtracked(back)) && |back| <= MAX_BACK_VER
    ensures b.TestJmp? || b.Union? || GoodExit(b.x, b.k, d)
    ensures !b.TestJmp? && !b.Union? ==> Safe(g, Going(z + b.x, back))
  {
    hide AllCompile, Safe, ItemAt, Shape, Backed;
  }

  lemma {:induction false} STestJmp(g: Verifying, p: int, z: int, b: Block, d: nat, back: seq<VEntry>)
    requires b.TestJmp? && ItemSafe(g, p, z, b, d, back)
    ensures Safe(g, Going(p, back))
    decreases Left(back), b, 2
  {
    hide *;
    ItemOf(g, p, z, b, d, back);
    TestFacts(g.c, p, z, b, d);
    var pe := z - |Flat(b.b2)|;
    ExitSafe(g, z, b.k, b.x, d, back);
    if StartsWithBack(b.b1) {
      var p1, d1 := p + CheckSize(b.t), 1 + |Flat(b.b2)| + b.x;
      var q := p1 + |Flat(b.b1)|;
      SJmp(g, q, d1, back);
      BackFirst(b.b1);
      FlatSplit(g.c, p1, b.b1);
      BackWord(g.c, p1, b.b1, d1);
      ExitsTo(g, q, d1, back);
      SBlock(g, p1 + 1, b.b1.k, d1, back);
      SLooks(g, p, b.t, pe + Exit(b.b2, b.x) - p, back);
    } else {
      SAlternative(g, pe, z, b.b2, b.x, b.k, d, back);
      STest(g, p, b.t, pe + Exit(b.b2, b.x) - p, back);
    }
  }

  lemma ExitsTo(g: Verifying, z: int, d: nat, back: seq<VEntry>)
    requires AllCompile(g.rules) && Safe(g, Going(z, back)) && Safe(g, Going(z + d, back))
             && Safe(g, Backtracked(back)) && |back| <= MAX_BACK_VER
    ensures Exits(g, z, d, back)
  {
    hide AllCompile, Safe;
  }

  /** An item that starts with a test and whose body cannot fail. */
  lemma SHead(g: Verifying, p: int, z: int, b: Block, d: nat, back: seq<VEntry>)
    requires (b.NotHead? || b.LoopHead? || b.OptHead?) && ItemSafe(g, p, z, b, d, back)
    ensures Safe(g, Going(p, back))
  {
    hide *;
    ItemOf(g, p, z, b, d, back);
    HeadCopies(b);
    if b.OptHead? { OptPlaced(g.c, p, z, b); } else { HeadPlaced(g.c, p, z, b); }
    HeadExit(b, d);
    BodyWord(g.c, p + CheckSize(b.t), b.b);
    STest(g, p, b.t, z + b.x - p, back);
  }

  lemma HeadCopies(b: Block)
    requires Shape(b)
    ensures b.OptHead? ==> b.n > 0
  {
  }

  /** A body under a fresh choice that leads to word out; z is where the body ends. */
  lemma {:induction false} SUnder(g: Verifying, p: int, b1: Block, z: int, out: int, back: seq<VEntry>)
    requires Proper(g) && Sub(g.c, p, Flat(b1)) && z == p + |Flat(b1)| && Shape(b1) && Valid(b1, 0) && Backed(b1, false)
    requires !At(g.c, z).IBack? && Clear(g.c, p) && AllCompile(g.rules) && |back| < MAX_BACK_VER
    requires Safe(g, Going(z, back + [VEntry(false, out)])) && Safe(g, Going(out, back))
    ensures Safe(g, Going(p, back + [VEntry(false, out)]))
    decreases Left(back + [VEntry(false, out)]), b1, 5
  {
    hide *;
    var e := VEntry(false, out);
    Unsaved(back, e);
    LeftLess(back, e);
    ExitsHere(g, z, back + [e]);
    SBlock(g, p, b1, 0, back + [e]);
  }

  /** The words around the body of an item that starts with a choice. */
  lemma ChoiceWords(c: Code, p: int, z: int, out: int, f: Code, last: Cell)
    requires ChoiceAt(c, p, z, out, f, last)
    ensures At(c, p) == IChoice(out - p, 0) && Sub(c, p + 1, f) && Clear(c, p + 1) && p >= 0
    ensures At(c, z - 1) == last && z - 1 == p + 1 + |f|
  {
  }

  lemma LoopParts(c: Code, p: int, z: int, b: Block, d: nat)
    requires b.Loop? && ItemAt(c, p, z, b) && Shape(b) && Valid(b, d) && Backed(b, false)
    ensures ChoiceAt(c, p, z, z + b.x, Flat(b.b), IPartialCommit(-|Flat(b.b)|))
    ensures Shape(b.b) && Valid(b.b, 0) && Backed(b.b, false)
  {
    hide Flat;
  }

  lemma {:induction false} SLoop(g: Verifying, p: int, z: int, b: Block, d: nat, back: seq<VEntry>)
    requires b.Loop? && ItemSafe(g, p, z, b, d, back)
    ensures Safe(g, Going(p, back))
    decreases Left(back), b, 2
  {
    hide *;
    ItemOf(g, p, z, b, d, back);
    LoopParts(g.c, p, z, b, d);
    ChoiceWords(g.c, p, z, z + b.x, Flat(b.b), IPartialCommit(-|Flat(b.b)|));
    var e := VEntry(false, z + b.x);
    if |back| < MAX_BACK_VER {
      LeftLess(back, e);
      if z - 1 == g.e {
        LoopAgain(g, p + 1, |Flat(b.b)|);
        Unsaved(back, e);
        SafeAgain(g, back + [e]);
      } else {
        SLoopEnd(g, z - 1, |Flat(b.b)|, e, back);
        SUnder(g, p + 1, b.b, z - 1, z + b.x, back);
      }
    }
    SChoice(g, p, z + b.x - p, 0, back);
  }

  /** The call that stops at the end of a loop has started at the loop's body. */
  lemma LoopAgain(g: Verifying, p: int, n: int)
    requires Proper(g) && n >= 0 && At(g.c, g.e) == IPartialCommit(-n) && p + n == g.e
    ensures p == g.p0
  {
    hide Proper;
    StopKind(g);
  }

  lemma AndParts(c: Code, p: int, z: int, b: Block, d: nat)
    requires b.And? && ItemAt(c, p, z, b) && Shape(b) && Valid(b, d) && Backed(b, false)
    ensures ChoiceAt(c, p, z - 1, z - 1, Flat(b.b), IBackCommit(2 + b.x)) && At(c, z - 1) == IFail
    ensures Shape(b.b) && Valid(b.b, 0) && Backed(b.b, false)
  {
    hide Flat;
  }

  lemma {:induction false} SAnd(g: Verifying, p: int, z: int, b: Block, d: nat, back: seq<VEntry>)
    requires b.And? && ItemSafe(g, p, z, b, d, back)
    ensures Safe(g, Going(p, back))
    decreases Left(back), b, 2
  {
    hide *;
    ItemOf(g, p, z, b, d, back);
    AndParts(g.c, p, z, b, d);
    ChoiceWords(g.c, p, z - 1, z - 1, Flat(b.b), IBackCommit(2 + b.x));
    var e := VEntry(false, z - 1);
    if |back| < MAX_BACK_VER {
      LeftLess(back, e);
      SAndFail(g, z - 1, back);
      SCommit(g, z - 2, 2 + b.x, e, back);
      SUnder(g, p + 1, b.b, z - 2, z - 1, back);
    }
    SChoice(g, p, z - 1 - p, 0, back);
  }

  lemma NotParts(c: Code, p: int, z: int, b: Block, d: nat)
    requires b.Not? && ItemAt(c, p, z, b) && Shape(b) && Valid(b, d) && Backed(b, false)
    ensures b.ot.Some? ==>
            At(c, p) == ICheck(b.ot.value, z + b.x - p) && !At(c, p + CheckSize(b.ot.value)).IBack? && p < z
    ensures b.ot.None? ==>
              && At(c, p) == IChoice(z + b.x - p, 0) && Sub(c, p + 1, Flat(b.b)) && Clear(c, p + 1)
              && At(c, z - 1) == IFailTwice && z - 1 == p + 1 + |Flat(b.b)|
              && Shape(b.b) && Valid(b.b, 0) && Backed(b.b, false)
  {
    hide Flat;
  }

  lemma {:induction false} SNot(g: Verifying, p: int, z: int, b: Block, d: nat, back: seq<VEntry>)
    requires b.Not? && ItemSafe(g, p, z, b, d, back)
    ensures Safe(g, Going(p, back))
    decreases Left(back), b, 2
  {
    hide *;
    ItemOf(g, p, z, b, d, back);
    NotParts(g.c, p, z, b, d);
    if b.ot.Some? {
      STest(g, p, b.ot.value, z + b.x - p, back);
    } else {
      var e := VEntry(false, z + b.x);
      if |back| < MAX_BACK_VER {
        LeftLess(back, e);
        Unsaved(back, e);
        SFail(g, z - 1, back + [e]);
        SUnder(g, p + 1, b.b, z - 1, z + b.x, back);
      }
      SChoice(g, p, z + b.x - p, 0, back);
    }
  }

  // ---- unions ----

  lemma UnionHead(c: Code, p: int, z: int, b: Block)
    requires b.Union? && ItemAt(c, p, z, b)
    ensures var out := z - |Flat(b.els)| + Exit(b.els, b.x);
            && (b.ot.Some? ==> At(c, p) == ICheck(b.ot.value, out - p) && !At(c, p + CheckSize(b.ot.value)).IBack?)
            && (b.ot.None? ==> At(c, p) == IChoice(out - p, b.aux) && Clear(c, p + 1))
  {
    hide Flat, MorePlaced;
  }

  lemma UnionFirst(c: Code, p: int, z: int, b: Block)
    requires b.Union? && b.ot.None? && ItemAt(c, p, z, b)
    ensures Sub(c, p + 1, Flat(b.first))
            && MorePlaced(c, z, Flat(b.more), b.m, Flat(b.els), b.x, p + 1 + |Flat(b.first)|)
  {
    hide Flat, MorePlaced, Sub;
  }

  lemma FirstOk(b: Block, d: nat)
    requires b.Union? && Shape(b) && Valid(b, d) && Backed(b, false)
    ensures Shape(b.first) && Valid(b.first, 0) && (b.ot.None? ==> Backed(b.first, false))
  {
  }

  lemma {:induction false} SUnion(g: Verifying, p: int, z: int, b: Block, d: nat, back: seq<VEntry>)
    requires b.Union? && ItemSafe(g, p, z, b, d, back)
    ensures Safe(g, Going(p, back))
    decreases Left(back), b, 2
  {
    hide *;
    ItemOf(g, p, z, b, d, back);
    UnionFacts(g.c, p, z, b, d);
    UnionHead(g.c, p, z, b);
    var pe := z - |Flat(b.els)|;
    var out := pe + Exit(b.els, b.x);
    SAlternative(g, pe, z, b.els, b.x, b.k, d, back);
    if b.ot.Some? {
      STest(g, p, b.ot.value, out - p, back);
    } else {
      if |back| < MAX_BACK_VER {
        LeftLess(back, VEntry(false, out));
        UnionFirst(g.c, p, z, b);
        FirstOk(b, d);
        var q := p + 1 + |Flat(b.first)|;
        MoreWord(g.c, z, b, b.m, q);
        ExitSafe(g, z, b.k, b.x, d, back);
        UnionMore(b, d);
        SMore(g, z, b, b.m, q, back);
        SUnder(g, p + 1, b.first, q, out, back);
      }
      SChoice(g, p, out - p, b.aux, back);
    }
  }

  /** The copies of a union's first alternative that are left, under its choice. */
  lemma {:induction false} SMore(g: Verifying, z: int, b: Block, m: nat, q: int, back: seq<VEntry>)
    requires Proper(g) && b.Union? && MorePlaced(g.c, z, Flat(b.more), m, Flat(b.els), b.x, q) && AllCompile(g.rules)
    requires Shape(b.more) && Valid(b.more, 0) && Backed(b.more, false) && |back| < MAX_BACK_VER
    requires Safe(g, Going(z + b.x, back)) && Safe(g, Going(z - |Flat(b.els)| + Exit(b.els, b.x), back))
    ensures Safe(g, Going(q, back + [VEntry(false, z - |Flat(b.els)| + Exit(b.els, b.x))]))
    decreases Left(back + [VEntry(false, z - |Flat(b.els)| + Exit(b.els, b.x))]), b, 5, m
  {
    hide *;
    var e := VEntry(false, z - |Flat(b.els)| + Exit(b.els, b.x));
    if m == 0 {
      MoreEnd(g.c, z, b, q);
      SCommit(g, q, 1 + |Flat(b.els)| + b.x, e, back);
    } else {
      MoreBody(g.c, z, b, m, q);
      MoreWord(g.c, z, b, m - 1, q + 1 + |Flat(b.more)|);
      SMore(g, z, b, m - 1, q + 1 + |Flat(b.more)|, back);
      SUnder(g, q + 1, b.more, q + 1 + |Flat(b.more)|, e.p, back);
      Unsaved(back, e);
      SPartial(g, q, back + [e]);
    }
  }

  lemma MoreBody(c: Code, z: int, b: Block, m: nat, q: int)
    requires b.Union? && MorePlaced(c, z, Flat(b.more), m, Flat(b.els), b.x, q) && m > 0
    ensures At(c, q) == IPartialCommit(1) && q >= 0 && Sub(c, q + 1, Flat(b.more)) && Clear(c, q + 1)
    ensures MorePlaced(c, z, Flat(b.more), m - 1, Flat(b.els), b.x, q + 1 + |Flat(b.more)|)
  {
    hide Flat;
    MoreLayout(c, z, Flat(b.more), m, Flat(b.els), b.x, q);
  }

  // ---- every call that checkrule makes ----

  lemma RulesHere(rules: seq<Rule>, first: nat, k: nat)
    requires AllCompile(rules) && first < |rules| && k < |rules|
    ensures RuleHere(GrammarCode(rules, first), rules, k)
  {
    hide Compile, Bodies, BlockOf, Good, Flat, GrammarCode;
    RulePlaced(rules, first, k);
    RuleSizes(rules, first, k);
    RuleClear(rules, first, k);
  }

  /** In front of a rule stands the return of the one before, or the jump at the start of the grammar. */
  lemma RuleClear(rules: seq<Rule>, first: nat, k: nat)
    requires AllCompile(rules) && first < |rules| && k < |rules|
    ensures Clear(GrammarCode(rules, first), Start(rules, k))
  {
    hide Compile, Bodies;
    RulePlaced(rules, first, k);
    if k > 0 { RulePlaced(rules, first, k - 1); }
  }

  /** A call that checkrule makes: for a rule, or for a loop over the words of a block. */
  ghost predicate Made(g: Verifying) {
    Proper(g) && (VerifiesLoop(g) ==> ClosesLoop(g.c, g.e))
  }

  lemma RuleCalled(rules: seq<Rule>, first: nat, k: nat)
    requires AllCompile(rules) && first < |rules| && k < |rules|
    ensures Made(Verifying(GrammarCode(rules, first), rules, Start(rules, k), EndOf(rules, k)))
  {
    hide AllCompile, RuleHere, GrammarCode, Start, EndOf, ClosesLoop;
    forall j | 0 <= j < |rules| ensures RuleHere(GrammarCode(rules, first), rules, j) { RulesHere(rules, first, j); }
    assert IsRule(rules, k, Start(rules, k), EndOf(rules, k));
    RuleStops(rules, first, k);
  }

  lemma RuleStops(rules: seq<Rule>, first: nat, k: nat)
    requires AllCompile(rules) && first < |rules| && k < |rules|
    ensures At(GrammarCode(rules, first), EndOf(rules, k)).IRet?
  {
    hide AllCompile, GrammarCode, Start, EndOf;
    RulePlaced(rules, first, k);
  }

  lemma LoopCalled(rules: seq<Rule>, first: nat, k: nat, i: int)
    requires AllCompile(rules) && first < |rules| && k < |rules| && Start(rules, k) <= i < Start(rules, k + 1)
    requires var w := At(GrammarCode(rules, first), i); w.IPartialCommit? && w.offset < 0
    ensures Made(Verifying(GrammarCode(rules, first), rules, i + At(GrammarCode(rules, first), i).offset, i))
  {
    hide AllCompile, RuleHere, GrammarCode, Start, EndOf, ClosesLoop;
    forall j | 0 <= j < |rules| ensures RuleHere(GrammarCode(rules, first), rules, j) { RulesHere(rules, first, j); }
    RulePlaced(rules, first, k);
    RuleStops(rules, first, k);
    RuleJump(rules, first, k, i);
  }

  /** The call ends, with an answer or an error of verify, and no assertion fails on the way. */
  lemma CallEnds(g: Verifying)
    requires Made(g)
    ensures AllCompile(g.rules) && Ends(g, Going(g.p0, []))
  {
    hide *;
    CalledProper(g);
    CallBody(g);
    CallExits(g);
    var b: Block :| BodyOf(g, b);
    SBlock(g, g.p0, b, 0, []) by { BodyParts(g, b); }
    CallStarts(g);
  }

  lemma CalledProper(g: Verifying)
    requires Made(g)
    ensures Proper(g) && AllCompile(g.rules)
  {
  }

  /** The block that the call verifies. */
  ghost predicate BodyOf(g: Verifying, b: Block) {
    && Sub(g.c, g.p0, Flat(b)) && g.p0 + |Flat(b)| == g.e && Shape(b) && Valid(b, 0) && Backed(b, false)
    && Clear(g.c, g.p0) && !At(g.c, g.e).IBack?
  }

  lemma BodyParts(g: Verifying, b: Block)
    requires BodyOf(g, b)
    ensures Sub(g.c, g.p0, Flat(b)) && g.p0 + |Flat(b)| == g.e && Shape(b) && Valid(b, 0) && Backed(b, false)
    ensures Clear(g.c, g.p0) && !At(g.c, g.e).IBack?
  {
    hide Flat, Shape, Valid, Backed, Clear;
  }

  lemma CallBody(g: Verifying)
    requires Made(g)
    ensures exists b: Block :: BodyOf(g, b)
  {
    hide AllCompile, Flat, Shape, Valid, Backed, BlockOf, Start, EndOf, RuleHere, Sub;
    if VerifiesLoop(g) {
      var b: Block :| LoopOver(g.c, g.e, b);
      assert BodyOf(g, b);
    } else {
      var k: int :| IsRule(g.rules, k, g.p0, g.e);
      RuleFacts(g, k);
      assert BodyOf(g, BlockOf(g.rules[k].patt));
    }
  }

  lemma CallExits(g: Verifying)
    requires Proper(g)
    ensures AllCompile(g.rules) && Exits(g, g.e, 0, [])
  {
    hide AllCompile, Safe;
    SafeDone(g, Finished(false));
    SafeDone(g, Finished(true));
    SafeNext(g, Going(g.e, []));
  }

  lemma CallStarts(g: Verifying)
    requires AllCompile(g.rules) && Safe(g, Going(g.p0, []))
    ensures Ends(g, Going(g.p0, []))
  {
    hide AllCompile;
    assert After(g, Going(g.p0, []), 0) == Going(g.p0, []);
  }

  /** verify from word p to word e comes to an end: with an answer, or with an error that it raises. */
  ghost predicate Answers(c: Code, rules: seq<Rule>, p: int, e: int)
    requires AllCompile(rules)
  {
    exists n: nat :: Done(VTurns(c, rules, e, Going(p, []), n))
  }

  /**
    Whatever the rules, every call of verify that checkrule makes for them comes to an end, and
    none ends in an assertion that fails.
   */
  lemma VerifyEnds(rules: seq<Rule>, first: nat, k: nat)
    requires AllCompile(rules) && first < |rules| && k < |rules|
    ensures var c := GrammarCode(rules, first);
            && Answers(c, rules, Start(rules, k), EndOf(rules, k))
            && forall i ::
                 Start(rules, k) <= i < Start(rules, k + 1) && At(c, i).IPartialCommit? && At(c, i).offset < 0 ==>
                 Answers(c, rules, i + At(c, i).offset, i)
  {
    hide AllCompile, GrammarCode, Start, EndOf, VTurns, Made;
    var c := GrammarCode(rules, first);
    RuleCalled(rules, first, k);
    CallAnswers(Verifying(c, rules, Start(rules, k), EndOf(rules, k)));
    forall i | Start(rules, k) <= i < Start(rules, k + 1) && At(c, i).IPartialCommit? && At(c, i).offset < 0
      ensures Answers(c, rules, i + At(c, i).offset, i)
    {
      LoopCalled(rules, first, k, i);
      CallAnswers(Verifying(c, rules, i + At(c, i).offset, i));
    }
  }

  lemma CallAnswers(g: Verifying)
    requires Made(g)
    ensures AllCompile(g.rules) && Answers(g.c, g.rules, g.p0, g.e)
  {
    hide AllCompile, VTurns, Made;
    CallEnds(g);
    var n: nat :| Done(After(g, Going(g.p0, []), n));
  }
}
