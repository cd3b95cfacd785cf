/**
  What the verifier finds in the rules of a grammar, by recursion over their blocks: whether it
  raises an error, or else whether the block may succeed without consuming.
 */
module LpegSees {
  import opened LpegCode
  import opened LpegMachine
  import opened LpegPeg
  import opened LpegBlock
  import opened LpegExec
  import opened LpegRun
  import opened LpegBuild
  import opened LpegShape
  import opened LpegVerify
  import opened LpegCorrect
  import opened LpegGrammar
  import opened LpegCheckrule
  import LpegTyping

  /** What follows is seen only behind a part that may be passed without consuming. */
  function Then(v: Option<bool>, next: Option<bool>): Option<bool> {
    if v == Some(true) then next else v
  }

  /** A part under a choice, whatever it is, is passed over. */
  function Passed(v: Option<bool>): Option<bool> {
    if v.None? then None else Some(true)
  }

  /**
    What verify finds from word w on, where block b stands: None for an error, or whether b may be passed
    without consuming.  `open` are the words that pending calls return to, and `room` is left for entries.
   */
  function See(rules: seq<Rule>, b: Block, w: int, open: set<int>, room: nat): Option<bool>
    requires AllCompile(rules)
    decreases room, b, 1, 0
  {
    if b.End? then Some(true)
    else if b.Prim? && b.i.ICheck? then
      if StartsWithBack(b.k) then See(rules, b.k.k, w + CheckSize(b.i.ck) + 1, open, room) else Some(false)
    else Then(SeeItem(rules, b, w, open, room), See(rules, b.k, w + |ItemWords(b)|, open, room))
  }

  function SeeItem(rules: seq<Rule>, b: Block, w: int, open: set<int>, room: nat): Option<bool>
    requires AllCompile(rules) && !b.End?
    decreases room, b, 0, 0
  {
    match b
    case Prim(i, _) =>
      if i.IFail? then Some(false)
      else if !i.IOpenCall? then Some(true)
      else
        var k := Find(rules, i.key, 0);
        if w + 1 in open || room == 0 || k == |rules| then None
        else See(rules, BlockOf(rules[k].patt), Start(rules, k), open + {w + 1}, room - 1)
    case TestJmp(t, b1, b2, _, _) =>
      if StartsWithBack(b1) then See(rules, b1.k, w + CheckSize(t) + 1, open, room)
      else See(rules, b2, w + CheckSize(t) + |Flat(b1)| + 1, open, room)
    case Union(ot, _, first, more, m, els, _, _) =>
      var rest := See(rules, els, w + |ItemWords(b)| - |Flat(els)|, open, room);
      if ot.Some? then rest
      else if room == 0 then None
      else
        var body := Then(See(rules, first, w + 1, open, room - 1),
          SeeMore(rules, b, m, w + 1 + |Flat(first)|, open, room - 1));
        if body == Some(false) then rest else body
    case Not(ot, b1, _, _) =>
      if ot.Some? then Some(true) else if room == 0 then None else Passed(See(rules, b1, w + 1, open, room - 1))
    case And(b1, _, _) => if room == 0 then None else Passed(See(rules, b1, w + 1, open, room - 1))
    case Loop(b1, _, _) => if room == 0 then None else Passed(See(rules, b1, w + 1, open, room - 1))
    case _ => Some(true)
  }

  /** The copies of a union's first alternative, each behind its partial commit. */
  function SeeMore(rules: seq<Rule>, b: Block, m: nat, w: int, open: set<int>, room: nat): Option<bool>
    requires AllCompile(rules) && b.Union?
    decreases room, b, 0, m
  {
    if m == 0 then Some(true)
    else
      Then(See(rules, b.more, w + 1, open, room),
        SeeMore(rules, b, m - 1, w + 1 + |Flat(b.more)|, open, room))
  }

  // ---- verify, not stopped ----

  /** The rules stand in the code, and verify is stopped at no word. */
  ghost predicate Unstopped(g: Verifying) {
    && AllCompile(g.rules) && (forall k :: 0 <= k < |g.rules| ==> RuleHere(g.c, g.rules, k)) && g.e == -1
  }

  ghost predicate Runs(g: Verifying, st: Scan, r: Scan)
    requires AllCompile(g.rules)
  {
    !r.Going? && exists n: nat :: After(g, st, n) == r
  }

  predicate IsError(r: Scan) {
    r.LeftRecursive? || r.TooMany? || r.Undefined?
  }

  /** The result r of a part is what v says; yes and no are the results of going on and of backtracking. */
  ghost predicate Fits(v: Option<bool>, r: Scan, yes: Scan, no: Scan) {
    if v.None? then IsError(r) else r == if v.value then yes else no
  }

  lemma RunsNext(g: Verifying, st: Scan, r: Scan)
    requires AllCompile(g.rules) && Runs(g, Next(g, st), r)
    ensures Runs(g, st, r)
  {
    hide AllCompile, Next, VTurn;
    var n: nat :| After(g, Next(g, st), n) == r;
    AfterFirst(g, st, n);
  }

  lemma RunsDone(g: Verifying, r: Scan)
    requires AllCompile(g.rules) && !r.Going?
    ensures Runs(g, r, r)
  {
    hide AllCompile;
    assert After(g, r, 0) == r;
  }

  /** One turn leads from word p to word q. */
  lemma RunsOn(g: Verifying, p: int, q: int, back: seq<VEntry>, r: Scan)
    requires AllCompile(g.rules) && Next(g, Going(p, back)) == Going(q, back) && Runs(g, Going(q, back), r)
    ensures Runs(g, Going(p, back), r)
  {
    hide *;
    RunsNext(g, Going(p, back), r);
  }

  function OpenOf(back: seq<VEntry>): set<int> {
    set i | 0 <= i < |back| && back[i].isCall :: back[i].p
  }

  function RoomOf(back: seq<VEntry>): nat {
    if |back| <= 200 then 200 - |back| else 0
  }

  lemma OpenIs(back: seq<VEntry>, w: int)
    ensures w in OpenOf(back) <==> Pending(back, w)
  {
    if Pending(back, w) {
      var i :| 0 <= i < |back| && back[i] == VEntry(true, w);
      assert back[i].isCall && back[i].p == w;
    }
    if w in OpenOf(back) {
      var i :| 0 <= i < |back| && back[i].isCall && back[i].p == w;
      assert back[i] == VEntry(true, w);
    }
  }

  lemma OpenMore(back: seq<VEntry>, e: VEntry)
    ensures OpenOf(back + [e]) == OpenOf(back) + if e.isCall then {e.p} else {}
    ensures |back| < 200 ==> RoomOf(back + [e]) == RoomOf(back) - 1
  {
    var over := back + [e];
    forall w ensures w in OpenOf(over) <==> w in OpenOf(back) || (e.isCall && w == e.p) {
      OpenIs(back, w);
      OpenIs(over, w);
      assert VEntry(true, w) in over <==> VEntry(true, w) in back || VEntry(true, w) == e;
    }
  }

  // ---- single words ----

  lemma XTest(g: Verifying, p: int, t: Check, offset: int, back: seq<VEntry>, r: Scan)
    requires Unstopped(g) && p >= 0 && At(g.c, p) == ICheck(t, offset) && offset != 0
             && !At(g.c, p + CheckSize(t)).IBack?
    requires Runs(g, Going(p + offset, back), r)
    ensures Runs(g, Going(p, back), r)
  {
    hide AllCompile, Runs, RuleHere;
    RunsOn(g, p, p + offset, back, r);
  }

  lemma XLooks(g: Verifying, p: int, t: Check, offset: int, back: seq<VEntry>, r: Scan)
    requires Unstopped(g) && p >= 0 && At(g.c, p) == ICheck(t, offset) && At(g.c, p + CheckSize(t)).IBack?
    requires Runs(g, Going(p + CheckSize(t) + 1, back), r)
    ensures Runs(g, Going(p, back), r)
  {
    hide AllCompile, Runs, RuleHere;
    RunsOn(g, p, p + CheckSize(t) + 1, back, r);
  }

  lemma XCheckFails(g: Verifying, p: int, t: Check, back: seq<VEntry>, r: Scan)
    requires Unstopped(g) && p >= 0 && At(g.c, p) == ICheck(t, 0) && !At(g.c, p + CheckSize(t)).IBack?
             && Runs(g, Backtracked(back), r)
    ensures Runs(g, Going(p, back), r)
  {
    hide AllCompile, Runs, RuleHere;
    RunsNext(g, Going(p, back), r);
  }

  lemma XJmp(g: Verifying, p: int, offset: int, back: seq<VEntry>, r: Scan)
    requires Unstopped(g) && p >= 0 && At(g.c, p) == IJmp(offset) && Runs(g, Going(p + offset, back), r)
    ensures Runs(g, Going(p, back), r)
  {
    hide AllCompile, Runs, RuleHere;
    RunsOn(g, p, p + offset, back, r);
  }

  lemma XStraight(g: Verifying, p: int, i: Cell, back: seq<VEntry>, r: Scan)
    requires Unstopped(g) && p >= 0 && At(g.c, p) == i && (i.ISpan? || i.ICapture?)
             && Runs(g, Going(p + Size(i), back), r)
    ensures Runs(g, Going(p, back), r)
  {
    hide AllCompile, Runs, RuleHere;
    RunsOn(g, p, p + Size(i), back, r);
  }

  lemma XFail(g: Verifying, p: int, back: seq<VEntry>, r: Scan)
    requires Unstopped(g) && p >= 0
             && (At(g.c, p).IFailTwice? || (At(g.c, p).IFail? && !At(g.c, p - 1).IBackCommit?))
             && Runs(g, Backtracked(back), r)
    ensures Runs(g, Going(p, back), r)
  {
    hide AllCompile, Runs, RuleHere;
    RunsNext(g, Going(p, back), r);
  }

  lemma XAndFail(g: Verifying, p: int, back: seq<VEntry>, r: Scan)
    requires Unstopped(g) && p >= 0 && At(g.c, p).IFail? && At(g.c, p - 1).IBackCommit?
             && Runs(g, Going(p + 1, back), r)
    ensures Runs(g, Going(p, back), r)
  {
    hide AllCompile, Runs, RuleHere;
    RunsOn(g, p, p + 1, back, r);
  }

  /** A choice saves an entry, or there is no room for it. */
  lemma XChoice(g: Verifying, p: int, offset: int, aux: nat, back: seq<VEntry>, r: Scan)
    requires Unstopped(g) && p >= 0 && At(g.c, p) == IChoice(offset, aux)
    requires if |back| < 200 then Runs(g, Going(p + 1, back + [VEntry(false, p + offset)]), r) else r == TooMany
    ensures Runs(g, Going(p, back), r)
  {
    hide AllCompile, Runs, RuleHere;
    if |back| >= 200 { RunsDone(g, TooMany); }
    RunsNext(g, Going(p, back), r);
  }

  lemma XCommit(g: Verifying, p: int, offset: int, e: VEntry, back: seq<VEntry>, r: Scan)
    requires Unstopped(g) && p >= 0 && (At(g.c, p) == ICommit(offset) || At(g.c, p) == IBackCommit(offset))
             && offset > 0
    requires Runs(g, Going(p + offset, back), r)
    ensures Runs(g, Going(p, back + [e]), r)
  {
    hide AllCompile, Runs, RuleHere;
    Unsaved(back, e);
    RunsNext(g, Going(p, back + [e]), r);
  }

  lemma XLoopEnd(g: Verifying, p: int, n: int, e: VEntry, back: seq<VEntry>, r: Scan)
    requires Unstopped(g) && p >= 0 && n >= 0 && At(g.c, p) == IPartialCommit(-n) && Runs(g, Going(p + 1, back), r)
    ensures Runs(g, Going(p, back + [e]), r)
  {
    hide AllCompile, Runs, RuleHere;
    Unsaved(back, e);
    RunsNext(g, Going(p, back + [e]), r);
  }

  lemma XPartial(g: Verifying, p: int, back: seq<VEntry>, r: Scan)
    requires Unstopped(g) && p >= 0 && At(g.c, p) == IPartialCommit(1) && back != [] && Runs(g, Going(p + 1, back), r)
    ensures Runs(g, Going(p, back), r)
  {
    hide AllCompile, Runs, RuleHere;
    RunsOn(g, p, p + 1, back, r);
  }

  lemma XRet(g: Verifying, p: int, e: VEntry, back: seq<VEntry>, r: Scan)
    requires Unstopped(g) && p >= 0 && At(g.c, p).IRet? && Runs(g, Going(e.p, back), r)
    ensures Runs(g, Going(p, back + [e]), r)
  {
    hide AllCompile, Runs, RuleHere;
    Unsaved(back, e);
    RunsNext(g, Going(p, back + [e]), r);
  }

  /** What an open call does. */
  lemma XOpen(g: Verifying, p: int, back: seq<VEntry>)
    requires Unstopped(g) && p >= 0 && At(g.c, p).IOpenCall? && |back| <= 200
    ensures var k := Find(g.rules, At(g.c, p).key, 0);
            var st := Next(g, Going(p, back));
            if p + 1 in OpenOf(back) || RoomOf(back) == 0 || k == |g.rules| then IsError(st)
            else |back| < 200 && st == Going(Start(g.rules, k), back + [VEntry(true, p + 1)])
  {
    hide AllCompile, RuleHere, OpenOf;
    OpenIs(back, p + 1);
    RoomAtStart(g.rules);
  }

  /** Rules start behind the first two words. */
  lemma RoomAtStart(rules: seq<Rule>)
    requires AllCompile(rules)
    ensures forall k :: 0 <= k < |rules| ==> Start(rules, k) > 0
  {
    hide AllCompile;
  }

  // ---- blocks ----

  /** What verify makes of leaving, at word z or d words further, or by backtracking. */
  ghost predicate Leaves(g: Verifying, z: int, d: nat, back: seq<VEntry>, yes: Scan, no: Scan)
    requires AllCompile(g.rules)
  {
    && Runs(g, Going(z, back), yes) && Runs(g, Going(z + d, back), yes) && Runs(g, Backtracked(back), no)
    && |back| <= 200
  }

  lemma LeavesOf(g: Verifying, z: int, d: nat, back: seq<VEntry>, yes: Scan, no: Scan)
    requires AllCompile(g.rules) && Leaves(g, z, d, back, yes, no)
    ensures Runs(g, Going(z, back), yes) && Runs(g, Going(z + d, back), yes) && Runs(g, Backtracked(back), no)
            && |back| <= 200
  {
    hide AllCompile, Runs;
  }

  lemma ExitRuns(g: Verifying, z: int, k: Block, x: nat, d: nat, back: seq<VEntry>, yes: Scan, no: Scan)
    requires AllCompile(g.rules) && Leaves(g, z, ItemSlide(k, d), back, yes, no) && GoodExit(x, k, d)
    ensures Runs(g, Going(z + x, back), yes)
  {
    hide AllCompile, Runs;
  }

  /** From leaving a block to leaving its first item; r is what becomes of the rest. */
  lemma LeavesInside(g: Verifying, z: int, k: Block, d: nat, back: seq<VEntry>, yes: Scan, no: Scan, r: Scan)
    requires AllCompile(g.rules) && Leaves(g, z + |Flat(k)|, d, back, yes, no)
             && (if k.End? then Flat(k) == [] && r == yes else Runs(g, Going(z, back), r))
    ensures Leaves(g, z, ItemSlide(k, d), back, r, no)
  {
    hide AllCompile, Runs, Flat;
  }

  /** What becomes of block b at word p, wherever what is behind it leads. */
  lemma {:induction false} XBlock(g: Verifying, p: int, b: Block, d: nat, back: seq<VEntry>, yes: Scan, no: Scan)
      returns (r: Scan)
    requires Unstopped(g) && Sub(g.c, p, Flat(b)) && Shape(b) && Valid(b, d) && Backed(b, false) && Clear(g.c, p)
    requires !At(g.c, p + |Flat(b)|).IBack? && AllCompile(g.rules) && Leaves(g, p + |Flat(b)|, d, back, yes, no)
    ensures Runs(g, Going(p, back), r) && Fits(See(g.rules, b, p, OpenOf(back), RoomOf(back)), r, yes, no)
    decreases RoomOf(back), b, 4, 0
  {
    hide *;
    var open, room := OpenOf(back), RoomOf(back);
    SeeIs(g.rules, b, p, open, room);
    if b.End? {
      NoWords();
      LeavesOf(g, p, d, back, yes, no);
      r := yes;
      FitsSome(true, yes, no);
    } else if b.Prim? && b.i.ICheck? {
      r := XCheckBlock(g, p, b, d, back, yes, no);
    } else {
      FlatSplit(g.c, p, b);
      var z := p + |ItemWords(b)|;
      TailFacts(b, d);
      NextWord(g.c, z, b.k);
      LastClear(g.c, p, b);
      var rk := yes;
      if b.k.End? {
        NoWords();
        SeeIs(g.rules, b.k, z, open, room);
        FitsSome(true, yes, no);
      } else {
        rk := XBlock(g, z, b.k, d, back, yes, no);
      }
      LeavesInside(g, z, b.k, d, back, yes, no, rk);
      r := XItem(g, p, z, b, d, back, rk, no);
      FitsThen(SeeItem(g.rules, b, p, open, room), See(g.rules, b.k, z, open, room), r, rk, yes, no);
    }
  }

  lemma SeeIs(rules: seq<Rule>, b: Block, w: int, open: set<int>, room: nat)
    requires AllCompile(rules)
    ensures See(rules, b, w, open, room) ==
            if b.End? then Some(true)
            else if b.Prim? && b.i.ICheck? then
              if StartsWithBack(b.k) then See(rules, b.k.k, w + CheckSize(b.i.ck) + 1, open, room) else Some(false)
            else Then(SeeItem(rules, b, w, open, room), See(rules, b.k, w + |ItemWords(b)|, open, room))
  {
    hide AllCompile, ItemWords, SeeItem;
  }

  lemma FitsSome(v: bool, yes: Scan, no: Scan)
    ensures Fits(Some(v), if v then yes else no, yes, no)
  {
  }

  lemma FitsThen(v: Option<bool>, next: Option<bool>, r: Scan, rk: Scan, yes: Scan, no: Scan)
    requires Fits(v, r, rk, no) && Fits(next, rk, yes, no)
    ensures Fits(Then(v, next), r, yes, no)
  {
  }

  lemma {:induction false} XCheckBlock(g: Verifying, p: int, b: Block, d: nat, back: seq<VEntry>, yes: Scan, no: Scan)
      returns (r: Scan)
    requires b.Prim? && b.i.ICheck?
    requires Unstopped(g) && Sub(g.c, p, Flat(b)) && Shape(b) && Valid(b, d) && Backed(b, false) && Clear(g.c, p)
    requires !At(g.c, p + |Flat(b)|).IBack? && AllCompile(g.rules) && Leaves(g, p + |Flat(b)|, d, back, yes, no)
    ensures Runs(g, Going(p, back), r) && Fits(See(g.rules, b, p, OpenOf(back), RoomOf(back)), r, yes, no)
    decreases RoomOf(back), b, 3, 0
  {
    hide *;
    SeeIs(g.rules, b, p, OpenOf(back), RoomOf(back));
    LeavesOf(g, p + |Flat(b)|, d, back, yes, no);
    FlatSplit(g.c, p, b);
    TailFacts(b, d);
    ItemHead(b);
    CheckWord(g.c, p, b);
    SubPlace(g.c, p, Flat(b));
    var z := p + |ItemWords(b)|;
    NextWord(g.c, z, b.k);
    if StartsWithBack(b.k) {
      BackFirst(b.k);
      FlatSplit(g.c, z, b.k);
      BackWord(g.c, z, b.k, d);
      r := XBlock(g, z + 1, b.k.k, d, back, yes, no);
      XLooks(g, p, b.i.ck, 0, back, r);
    } else {
      r := no;
      FitsSome(false, yes, no);
      XCheckFails(g, p, b.i.ck, back, no);
    }
  }

  lemma SubPlace(c: Code, p: int, f: Code)
    requires Sub(c, p, f)
    ensures p >= 0
  {
  }

  // ---- items ----

  /** What stands between the parts of the first item. */
  ghost predicate ItemSeen(g: Verifying, p: int, z: int, b: Block, d: nat, back: seq<VEntry>, yes: Scan, no: Scan) {
    && Unstopped(g) && !b.End? && !b.Prim? && ItemAt(g.c, p, z, b) && Shape(b) && Valid(b, d) && Backed(b, false)
    && !At(g.c, z).IBack? && p >= 0 && z == p + |ItemWords(b)| && Leaves(g, z, ItemSlide(b.k, d), back, yes, no)
  }

  lemma ItemSeenIs(g: Verifying, p: int, z: int, b: Block, d: nat, back: seq<VEntry>, yes: Scan, no: Scan)
    requires Unstopped(g) && !b.End? && !b.Prim? && ItemAt(g.c, p, z, b) && Shape(b) && Valid(b, d) && Backed(b, false)
    requires !At(g.c, z).IBack? && p >= 0 && z == p + |ItemWords(b)| && Leaves(g, z, ItemSlide(b.k, d), back, yes, no)
    ensures ItemSeen(g, p, z, b, d, back, yes, no)
  {
    hide AllCompile, ItemAt, Shape, Valid, Backed, Leaves, Unstopped, ItemWords;
  }

  lemma SeenItem(g: Verifying, p: int, z: int, b: Block, d: nat, back: seq<VEntry>, yes: Scan, no: Scan)
    requires ItemSeen(g, p, z, b, d, back, yes, no)
    ensures Unstopped(g) && AllCompile(g.rules) && ItemAt(g.c, p, z, b) && Shape(b) && Valid(b, d) && Backed(b, false)
    ensures !At(g.c, z).IBack? && p >= 0 && z == p + |ItemWords(b)| && Leaves(g, z, ItemSlide(b.k, d), back, yes, no)
    ensures Runs(g, Going(z, back), yes) && Runs(g, Backtracked(back), no) && |back| <= 200
    ensures b.TestJmp? || b.Union? || (GoodExit(b.x, b.k, d) && Runs(g, Going(z + b.x, back), yes))
  {
    hide AllCompile, Runs, ItemAt, Shape, Backed, ItemWords, RuleHere;
  }

  lemma {:induction false} XItem(g: Verifying, p: int, z: int, b: Block, d: nat, back: seq<VEntry>, yes: Scan, no: Scan)
      returns (r: Scan)
    requires Unstopped(g) && !b.End? && !(b.Prim? && b.i.ICheck?) && Sub(g.c, p, ItemWords(b))
             && z == p + |ItemWords(b)|
    requires Shape(b) && Valid(b, d) && Backed(b, false) && Clear(g.c, p) && !At(g.c, z).IBack?
    requires AllCompile(g.rules) && Leaves(g, z, ItemSlide(b.k, d), back, yes, no)
    ensures Runs(g, Going(p, back), r) && Fits(SeeItem(g.rules, b, p, OpenOf(back), RoomOf(back)), r, yes, no)
    decreases RoomOf(back), b, 3, 0
  {
    hide *;
    SubPlace(g.c, p, ItemWords(b));
    if b.Prim? {
      r := XPrim(g, p, z, b, d, back, yes, no);
    } else {
      Layout(g.c, p, b);
      ItemSeenIs(g, p, z, b, d, back, yes, no);
      if b.TestJmp? {
        r := XTestJmp(g, p, z, b, d, back, yes, no);
      } else if b.Union? {
        r := XUnion(g, p, z, b, d, back, yes, no);
      } else if b.Not? {
        r := XNot(g, p, z, b, d, back, yes, no);
      } else if b.And? {
        r := XAnd(g, p, z, b, d, back, yes, no);
      } else if b.Loop? {
        r := XLoop(g, p, z, b, d, back, yes, no);
      } else {
        r := yes;
        XHead(g, p, z, b, d, back, yes, no);
      }
    }
  }

  lemma {:induction false} XPrim(g: Verifying, p: int, z: int, b: Block, d: nat, back: seq<VEntry>, yes: Scan, no: Scan)
      returns (r: Scan)
    requires Unstopped(g) && b.Prim? && !b.i.ICheck? && Sub(g.c, p, ItemWords(b)) && z == p + |ItemWords(b)| && p >= 0
    requires Shape(b) && Backed(b, false) && Clear(g.c, p)
    requires AllCompile(g.rules) && Leaves(g, z, ItemSlide(b.k, d), back, yes, no)
    ensures Runs(g, Going(p, back), r) && Fits(SeeItem(g.rules, b, p, OpenOf(back), RoomOf(back)), r, yes, no)
    decreases RoomOf(back), b, 2, 0
  {
    hide *;
    LeavesOf(g, z, ItemSlide(b.k, d), back, yes, no);
    PrimWord(g.c, p, b);
    SeePrim(g.rules, b, p, OpenOf(back), RoomOf(back));
    FitsSome(true, yes, no);
    FitsSome(false, yes, no);
    if b.i.IOpenCall? {
      var k := Find(g.rules, b.i.key, 0);
      XOpen(g, p, back);
      if p + 1 in OpenOf(back) || RoomOf(back) == 0 || k == |g.rules| {
        r := Next(g, Going(p, back));
        ErrorDone(r);
        FitsError(r, yes, no);
        RunsDone(g, r);
        RunsNext(g, Going(p, back), r);
      } else {
        OpenMore(back, VEntry(true, p + 1));
        r := XRule(g, k, p + 1, back, yes, no);
        RunsNext(g, Going(p, back), r);
      }
    } else if b.i.IFail? {
      r := no;
      XFail(g, p, back, no);
    } else {
      r := yes;
      XStraight(g, p, b.i, back, yes);
    }
  }

  lemma ErrorDone(r: Scan)
    requires IsError(r)
    ensures !r.Going?
  {
  }

  lemma FitsError(r: Scan, yes: Scan, no: Scan)
    requires IsError(r)
    ensures Fits(None, r, yes, no)
  {
  }

  lemma SeePrim(rules: seq<Rule>, b: Block, w: int, open: set<int>, room: nat)
    requires AllCompile(rules) && b.Prim?
    ensures !b.i.IOpenCall? ==> SeeItem(rules, b, w, open, room) == Some(!b.i.IFail?)
    ensures b.i.IOpenCall? ==>
              var k := Find(rules, b.i.key, 0);
              SeeItem(rules, b, w, open, room) ==
              if w + 1 in open || room == 0 || k == |rules| then None
              else See(rules, BlockOf(rules[k].patt), Start(rules, k), open + {w + 1}, room - 1)
  {
    hide AllCompile, BlockOf, Start, See, Find;
  }

  /** A rule called with word w as its return. */
  lemma {:induction false} XRule(g: Verifying, k: nat, w: int, back: seq<VEntry>, yes: Scan, no: Scan)
      returns (r: Scan)
    requires Unstopped(g) && AllCompile(g.rules) && k < |g.rules| && |back| < 200 && w >= 0
    requires Runs(g, Going(w, back), yes) && Runs(g, Backtracked(back), no)
    ensures var over := back + [VEntry(true, w)];
            && Runs(g, Going(Start(g.rules, k), over), r)
            && Fits(See(g.rules, BlockOf(g.rules[k].patt), Start(g.rules, k), OpenOf(over), RoomOf(over)), r, yes, no)
    decreases RoomOf(back + [VEntry(true, w)]), BlockOf(g.rules[k].patt), 5, 0
  {
    hide *;
    var e := VEntry(true, w);
    Unsaved(back, e);
    RulePart(g, k);
    XRet(g, EndOf(g.rules, k), e, back, yes);
    LeavesHere(g, EndOf(g.rules, k), back + [e], yes, no);
    r := XBlock(g, Start(g.rules, k), BlockOf(g.rules[k].patt), 0, back + [e], yes, no);
  }

  lemma LeavesHere(g: Verifying, z: int, back: seq<VEntry>, yes: Scan, no: Scan)
    requires AllCompile(g.rules) && Runs(g, Going(z, back), yes) && Runs(g, Backtracked(back), no) && |back| <= 200
    ensures Leaves(g, z, 0, back, yes, no)
  {
    hide AllCompile, Runs;
  }

  lemma RulePart(g: Verifying, k: nat)
    requires Unstopped(g) && AllCompile(g.rules) && k < |g.rules|
    ensures var b, p, z := BlockOf(g.rules[k].patt), Start(g.rules, k), EndOf(g.rules, k);
            && Sub(g.c, p, Flat(b)) && Shape(b) && Valid(b, 0) && Backed(b, false) && Clear(g.c, p)
            && z == p + |Flat(b)| && At(g.c, z).IRet? && !At(g.c, z).IBack? && z >= 0
  {
    hide AllCompile, Flat, BlockOf, Start, RuleCode;
    assert RuleHere(g.c, g.rules, k);
    GoodOf(BlockOf(g.rules[k].patt));
  }

  /** The last alternative of an item, entered at its start or, when empty, at the item's exit. */
  lemma {:induction false} XAlternative(g: Verifying, pe: int, z: int, els: Block, x: nat, k: Block, d: nat,
      back: seq<VEntry>, yes: Scan, no: Scan)
      returns (r: Scan)
    requires Unstopped(g) && Sub(g.c, pe, Flat(els)) && pe + |Flat(els)| == z && Shape(els)
             && Valid(els, ItemSlide(k, d)) && Backed(els, false)
    requires !At(g.c, z).IBack? && Clear(g.c, pe) && GoodExit(x, k, d)
    requires AllCompile(g.rules) && Leaves(g, z, ItemSlide(k, d), back, yes, no)
    ensures Runs(g, Going(pe + Exit(els, x), back), r)
            && Fits(See(g.rules, els, pe, OpenOf(back), RoomOf(back)), r, yes, no)
    decreases RoomOf(back), els, 5, 0
  {
    hide *;
    LpegTyping.ExitIs(els, x);
    if els.End? {
      NoWords();
      r := yes;
      SeeIs(g.rules, els, pe, OpenOf(back), RoomOf(back));
      FitsSome(true, yes, no);
      ExitRuns(g, z, k, x, d, back, yes, no);
    } else {
      r := XBlock(g, pe, els, ItemSlide(k, d), back, yes, no);
    }
  }

  lemma {:induction false} XTestJmp(g: Verifying, p: int, z: int, b: Block, d: nat, back: seq<VEntry>, yes: Scan,
      no: Scan)
      returns (r: Scan)
    requires b.TestJmp? && ItemSeen(g, p, z, b, d, back, yes, no)
    ensures AllCompile(g.rules)
    ensures Runs(g, Going(p, back), r) && Fits(SeeItem(g.rules, b, p, OpenOf(back), RoomOf(back)), r, yes, no)
    decreases RoomOf(back), b, 2, 0
  {
    hide *;
    SeenItem(g, p, z, b, d, back, yes, no);
    TestFacts(g.c, p, z, b, d);
    SeeTest(g.rules, b, p, OpenOf(back), RoomOf(back));
    var pe := z - |Flat(b.b2)|;
    ExitRuns(g, z, b.k, b.x, d, back, yes, no);
    if StartsWithBack(b.b1) {
      var p1, d1 := p + CheckSize(b.t), 1 + |Flat(b.b2)| + b.x;
      var q := p1 + |Flat(b.b1)|;
      XJmp(g, q, d1, back, yes);
      BackFirst(b.b1);
      FlatSplit(g.c, p1, b.b1);
      BackWord(g.c, p1, b.b1, d1);
      LeavesTo(g, q, d1, back, yes, no);
      r := XBlock(g, p1 + 1, b.b1.k, d1, back, yes, no);
      XLooks(g, p, b.t, pe + Exit(b.b2, b.x) - p, back, r);
    } else {
      r := XAlternative(g, pe, z, b.b2, b.x, b.k, d, back, yes, no);
      XTest(g, p, b.t, pe + Exit(b.b2, b.x) - p, back, r);
    }
  }

  lemma LeavesTo(g: Verifying, z: int, d: nat, back: seq<VEntry>, yes: Scan, no: Scan)
    requires AllCompile(g.rules) && Runs(g, Going(z, back), yes) && Runs(g, Going(z + d, back), yes)
             && Runs(g, Backtracked(back), no) && |back| <= 200
    ensures Leaves(g, z, d, back, yes, no)
  {
    hide AllCompile, Runs;
  }

  lemma SeeTest(rules: seq<Rule>, b: Block, w: int, open: set<int>, room: nat)
    requires AllCompile(rules) && b.TestJmp?
    ensures SeeItem(rules, b, w, open, room) ==
            if StartsWithBack(b.b1) then See(rules, b.b1.k, w + CheckSize(b.t) + 1, open, room)
            else See(rules, b.b2, w + CheckSize(b.t) + |Flat(b.b1)| + 1, open, room)
  {
    hide AllCompile, See, Flat;
  }

  /** An item that starts with a test and whose body cannot fail. */
  lemma XHead(g: Verifying, p: int, z: int, b: Block, d: nat, back: seq<VEntry>, yes: Scan, no: Scan)
    requires (b.NotHead? || b.LoopHead? || b.OptHead?) && ItemSeen(g, p, z, b, d, back, yes, no)
    ensures AllCompile(g.rules)
    ensures Runs(g, Going(p, back), yes) && Fits(SeeItem(g.rules, b, p, OpenOf(back), RoomOf(back)), yes, yes, no)
  {
    hide *;
    SeenItem(g, p, z, b, d, back, yes, no);
    SeeHead(g.rules, b, p, OpenOf(back), RoomOf(back));
    FitsSome(true, yes, no);
    HeadCopies(b);
    if b.OptHead? { OptPlaced(g.c, p, z, b); } else { HeadPlaced(g.c, p, z, b); }
    HeadExit(b, d);
    BodyWord(g.c, p + CheckSize(b.t), b.b);
    XTest(g, p, b.t, z + b.x - p, back, yes);
  }

  lemma SeeHead(rules: seq<Rule>, b: Block, w: int, open: set<int>, room: nat)
    requires AllCompile(rules) && (b.NotHead? || b.LoopHead? || b.OptHead?)
    ensures SeeItem(rules, b, w, open, room) == Some(true)
  {
  }

  /** A body under a fresh choice that leads to word out; z is where the body ends. */
  lemma {:induction false} XUnder(g: Verifying, p: int, b1: Block, z: int, out: int, back: seq<VEntry>, yes: Scan,
      no: Scan)
      returns (r: Scan)
    requires Unstopped(g) && Sub(g.c, p, Flat(b1)) && z == p + |Flat(b1)| && Shape(b1) && Valid(b1, 0)
             && Backed(b1, false)
    requires !At(g.c, z).IBack? && Clear(g.c, p) && AllCompile(g.rules) && |back| < 200
    requires Runs(g, Going(z, back + [VEntry(false, out)]), yes) && Runs(g, Going(out, back), no)
    ensures RoomOf(back) > 0
    ensures Runs(g, Going(p, back + [VEntry(false, out)]), r)
    ensures Fits(See(g.rules, b1, p, OpenOf(back), RoomOf(back) - 1), r, yes, no)
    decreases RoomOf(back + [VEntry(false, out)]), b1, 5, 0
  {
    hide *;
    var e := VEntry(false, out);
    Unsaved(back, e);
    OpenMore(back, e);
    NoneMore(OpenOf(back));
    LeavesHere(g, z, back + [e], yes, no);
    r := XBlock(g, p, b1, 0, back + [e], yes, no);
    RoomLeft(back);
  }

  lemma NoneMore(s: set<int>)
    ensures s + {} == s
  {
  }

  lemma RoomLeft(back: seq<VEntry>)
    ensures RoomOf(back) > 0 <==> |back| < 200
  {
  }

  /** A body under a choice that is passed over whatever it does. */
  lemma {:induction false} XOver(g: Verifying, p: int, b: Block, b1: Block, z: int, out: int, aux: nat,
      back: seq<VEntry>, yes: Scan, no: Scan)
      returns (r: Scan)
    requires b1 < b && Unstopped(g) && Sub(g.c, p + 1, Flat(b1)) && z == p + 1 + |Flat(b1)| && Shape(b1)
             && Valid(b1, 0) && Backed(b1, false) && p >= 0
    requires !At(g.c, z).IBack? && Clear(g.c, p + 1) && AllCompile(g.rules) && At(g.c, p) == IChoice(out - p, aux)
    requires |back| < 200 ==> Runs(g, Going(z, back + [VEntry(false, out)]), yes)
    requires Runs(g, Going(out, back), yes)
    ensures Runs(g, Going(p, back), r)
    ensures Fits(if RoomOf(back) == 0 then None
                 else Passed(See(g.rules, b1, p + 1, OpenOf(back), RoomOf(back) - 1)), r, yes, no)
    decreases RoomOf(back), b, 1, 0
  {
    hide *;
    RoomLeft(back);
    if |back| < 200 {
      OpenMore(back, VEntry(false, out));
      r := XUnder(g, p + 1, b1, z, out, back, yes, yes);
      FitsPassed(See(g.rules, b1, p + 1, OpenOf(back), RoomOf(back) - 1), r, yes, no);
    } else {
      r := TooMany;
      FitsTooMany(yes, no);
    }
    XChoice(g, p, out - p, aux, back, r);
  }

  lemma FitsPassed(v: Option<bool>, r: Scan, yes: Scan, no: Scan)
    requires Fits(v, r, yes, yes)
    ensures Fits(Passed(v), r, yes, no)
  {
  }

  lemma FitsTooMany(yes: Scan, no: Scan)
    ensures Fits(None, TooMany, yes, no)
  {
  }

  lemma SeeOver(rules: seq<Rule>, b: Block, w: int, open: set<int>, room: nat)
    requires AllCompile(rules) && (b.Not? || b.And? || b.Loop?)
    ensures SeeItem(rules, b, w, open, room) ==
            if b.Not? && b.ot.Some? then Some(true) else if room == 0 then None
            else Passed(See(rules, b.b, w + 1, open, room - 1))
    ensures b.b < b
  {
    hide AllCompile, See, Flat;
  }

  lemma {:induction false} XLoop(g: Verifying, p: int, z: int, b: Block, d: nat, back: seq<VEntry>, yes: Scan, no: Scan)
      returns (r: Scan)
    requires b.Loop? && ItemSeen(g, p, z, b, d, back, yes, no)
    ensures AllCompile(g.rules)
    ensures Runs(g, Going(p, back), r) && Fits(SeeItem(g.rules, b, p, OpenOf(back), RoomOf(back)), r, yes, no)
    decreases RoomOf(back), b, 2, 0
  {
    hide *;
    SeenItem(g, p, z, b, d, back, yes, no);
    SeeOver(g.rules, b, p, OpenOf(back), RoomOf(back));
    LoopParts(g.c, p, z, b, d);
    ChoiceWords(g.c, p, z, z + b.x, Flat(b.b), IPartialCommit(-|Flat(b.b)|));
    XLoopEnd(g, z - 1, |Flat(b.b)|, VEntry(false, z + b.x), back, yes);
    r := XOver(g, p, b, b.b, z - 1, z + b.x, 0, back, yes, no);
  }

  lemma {:induction false} XAnd(g: Verifying, p: int, z: int, b: Block, d: nat, back: seq<VEntry>, yes: Scan, no: Scan)
      returns (r: Scan)
    requires b.And? && ItemSeen(g, p, z, b, d, back, yes, no)
    ensures AllCompile(g.rules)
    ensures Runs(g, Going(p, back), r) && Fits(SeeItem(g.rules, b, p, OpenOf(back), RoomOf(back)), r, yes, no)
    decreases RoomOf(back), b, 2, 0
  {
    hide *;
    SeenItem(g, p, z, b, d, back, yes, no);
    SeeOver(g.rules, b, p, OpenOf(back), RoomOf(back));
    AndParts(g.c, p, z, b, d);
    ChoiceWords(g.c, p, z - 1, z - 1, Flat(b.b), IBackCommit(2 + b.x));
    XAndFail(g, z - 1, back, yes);
    XCommit(g, z - 2, 2 + b.x, VEntry(false, z - 1), back, yes);
    r := XOver(g, p, b, b.b, z - 2, z - 1, 0, back, yes, no);
  }

  lemma {:induction false} XNot(g: Verifying, p: int, z: int, b: Block, d: nat, back: seq<VEntry>, yes: Scan, no: Scan)
      returns (r: Scan)
    requires b.Not? && ItemSeen(g, p, z, b, d, back, yes, no)
    ensures AllCompile(g.rules)
    ensures Runs(g, Going(p, back), r) && Fits(SeeItem(g.rules, b, p, OpenOf(back), RoomOf(back)), r, yes, no)
    decreases RoomOf(back), b, 2, 0
  {
    hide *;
    SeenItem(g, p, z, b, d, back, yes, no);
    SeeOver(g.rules, b, p, OpenOf(back), RoomOf(back));
    NotParts(g.c, p, z, b, d);
    if b.ot.Some? {
      r := yes;
      FitsSome(true, yes, no);
      XTest(g, p, b.ot.value, z + b.x - p, back, yes);
    } else {
      var e := VEntry(false, z + b.x);
      Unsaved(back, e);
      XFail(g, z - 1, back + [e], yes);
      r := XOver(g, p, b, b.b, z - 1, z + b.x, 0, back, yes, no);
    }
  }

  // ---- unions ----

  lemma {:induction false} XUnion(g: Verifying, p: int, z: int, b: Block, d: nat, back: seq<VEntry>, yes: Scan,
      no: Scan)
      returns (r: Scan)
    requires b.Union? && ItemSeen(g, p, z, b, d, back, yes, no)
    ensures AllCompile(g.rules)
    ensures Runs(g, Going(p, back), r) && Fits(SeeItem(g.rules, b, p, OpenOf(back), RoomOf(back)), r, yes, no)
    decreases RoomOf(back), b, 2, 0
  {
    hide *;
    SeenItem(g, p, z, b, d, back, yes, no);
    UnionFacts(g.c, p, z, b, d);
    UnionHead(g.c, p, z, b);
    var open, room := OpenOf(back), RoomOf(back);
    SeeUnion(g.rules, b, p, open, room);
    var pe := z - |Flat(b.els)|;
    var out := pe + Exit(b.els, b.x);
    var re := XAlternative(g, pe, z, b.els, b.x, b.k, d, back, yes, no);
    RoomLeft(back);
    if b.ot.Some? {
      r := re;
      XTest(g, p, b.ot.value, out - p, back, r);
    } else if |back| < 200 {
      OpenMore(back, VEntry(false, out));
      UnionFirst(g.c, p, z, b);
      FirstOk(b, d);
      var q := p + 1 + |Flat(b.first)|;
      MoreWord(g.c, z, b, b.m, q);
      ExitRuns(g, z, b.k, b.x, d, back, yes, no);
      UnionMore(b, d);
      var rm := XMore(g, z, b, b.m, q, back, yes, re);
      r := XUnder(g, p + 1, b.first, q, out, back, rm, re);
      FitsThen(See(g.rules, b.first, p + 1, open, room - 1), SeeMore(g.rules, b, b.m, q, open, room - 1), r, rm, yes,
        re);
      FitsUnion(SeeBody(g.rules, b, p, open, room), See(g.rules, b.els, pe, open, room), r, re, yes, no);
      XChoice(g, p, out - p, b.aux, back, r);
    } else {
      r := TooMany;
      FitsTooMany(yes, no);
      XChoice(g, p, out - p, b.aux, back, r);
    }
  }

  /** A union's first alternative in all its copies, under its choice. */
  function SeeBody(rules: seq<Rule>, b: Block, w: int, open: set<int>, room: nat): Option<bool>
    requires AllCompile(rules) && b.Union? && room > 0
  {
    Then(See(rules, b.first, w + 1, open, room - 1), SeeMore(rules, b, b.m, w + 1 + |Flat(b.first)|, open, room - 1))
  }

  lemma SeeUnion(rules: seq<Rule>, b: Block, w: int, open: set<int>, room: nat)
    requires AllCompile(rules) && b.Union?
    ensures SeeItem(rules, b, w, open, room) ==
            var rest := See(rules, b.els, w + |ItemWords(b)| - |Flat(b.els)|, open, room);
            if b.ot.Some? then rest else if room == 0 then None
            else var body := SeeBody(rules, b, w, open, room); if body == Some(false) then rest else body
    ensures room > 0 ==>
            SeeBody(rules, b, w, open, room) ==
              Then(See(rules, b.first, w + 1, open, room - 1),
                SeeMore(rules, b, b.m, w + 1 + |Flat(b.first)|, open, room - 1))
  {
    hide AllCompile, See, Flat, ItemWords, SeeMore;
  }

  lemma FitsUnion(body: Option<bool>, rest: Option<bool>, r: Scan, re: Scan, yes: Scan, no: Scan)
    requires Fits(body, r, yes, re) && Fits(rest, re, yes, no)
    ensures Fits(if body == Some(false) then rest else body, r, yes, no)
  {
  }

  /** The copies of a union's first alternative that are left, under its choice. */
  lemma {:induction false} XMore(g: Verifying, z: int, b: Block, m: nat, q: int, back: seq<VEntry>, yes: Scan, no: Scan)
      returns (r: Scan)
    requires Unstopped(g) && b.Union? && MorePlaced(g.c, z, Flat(b.more), m, Flat(b.els), b.x, q) && AllCompile(g.rules)
    requires Shape(b.more) && Valid(b.more, 0) && Backed(b.more, false) && |back| < 200
    requires Runs(g, Going(z + b.x, back), yes) && Runs(g, Going(z - |Flat(b.els)| + Exit(b.els, b.x), back), no)
    ensures RoomOf(back) > 0
    ensures Runs(g, Going(q, back + [VEntry(false, z - |Flat(b.els)| + Exit(b.els, b.x))]), r)
    ensures Fits(SeeMore(g.rules, b, m, q, OpenOf(back), RoomOf(back) - 1), r, yes, no)
    decreases RoomOf(back + [VEntry(false, z - |Flat(b.els)| + Exit(b.els, b.x))]), b, 5, m
  {
    hide *;
    RoomLeft(back);
    var e := VEntry(false, z - |Flat(b.els)| + Exit(b.els, b.x));
    SeeMoreIs(g.rules, b, m, q, OpenOf(back), RoomOf(back) - 1);
    if m == 0 {
      MoreEnd(g.c, z, b, q);
      r := yes;
      FitsSome(true, yes, no);
      XCommit(g, q, 1 + |Flat(b.els)| + b.x, e, back, yes);
    } else {
      MoreBody(g.c, z, b, m, q);
      var q2 := q + 1 + |Flat(b.more)|;
      MoreWord(g.c, z, b, m - 1, q2);
      var rm := XMore(g, z, b, m - 1, q2, back, yes, no);
      r := XUnder(g, q + 1, b.more, q2, e.p, back, rm, no);
      FitsThen(See(g.rules, b.more, q + 1, OpenOf(back), RoomOf(back) - 1),
        SeeMore(g.rules, b, m - 1, q2, OpenOf(back), RoomOf(back) - 1), r, rm, yes, no);
      Unsaved(back, e);
      XPartial(g, q, back + [e], r);
    }
  }

  lemma SeeMoreIs(rules: seq<Rule>, b: Block, m: nat, w: int, open: set<int>, room: nat)
    requires AllCompile(rules) && b.Union?
    ensures SeeMore(rules, b, m, w, open, room) ==
            if m == 0 then Some(true)
            else Then(See(rules, b.more, w + 1, open, room),
                   SeeMore(rules, b, m - 1, w + 1 + |Flat(b.more)|, open, room))
  {
    hide AllCompile, See, Flat;
  }
}
