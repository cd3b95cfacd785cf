/**
  What the left-recursion check promises.  In a grammar that fix_l accepts every rule has a result
  everywhere, and every run halts, when no alternative that the check passes over is ever tried:
  when what stands in front of it never fails, or it refers to no rule.
 */
module LpegTotal {
  import opened LpegCode
  import opened LpegMachine
  import opened LpegPeg
  import opened LpegBlock
  import opened LpegExec
  import opened LpegRun
  import opened LpegBuild
  import opened LpegShape
  import opened LpegVerify
  import opened LpegCorrect
  import opened LpegGrammar
  import opened LpegCheckrule
  import opened LpegSees
  import opened LpegMeaning
  import opened LpegOperators
  import opened LpegAccepts
  import LpegTyping

  // ---- references, and parts that never fail ----

  predicate HasCall(b: Block) {
    match b
    case End => false
    case Prim(i, k) => i.IOpenCall? || HasCall(k)
    case TestJmp(_, b1, b2, _, k) => HasCall(b1) || HasCall(b2) || HasCall(k)
    case Union(_, _, first, more, m, els, _, k) =>
      HasCall(first) || (m > 0 && HasCall(more)) || HasCall(els) || HasCall(k)
    case Not(_, b1, _, k) => HasCall(b1) || HasCall(k)
    case NotHead(_, _, _, k) => HasCall(k)
    case And(b1, _, k) => HasCall(b1) || HasCall(k)
    case Loop(b1, _, k) => HasCall(b1) || HasCall(k)
    case LoopHead(_, _, _, k) => HasCall(k)
    case OptHead(_, _, _, _, k) => HasCall(k)
  }

  /** The block matches wherever it is tried, if the rules with the keys `sure` do. */
  predicate NeverFails(b: Block, sure: set<int>)
    decreases b, 1
  {
    b.End? || (NeverItem(b, sure) && NeverFails(b.k, sure))
  }

  predicate NeverItem(b: Block, sure: set<int>)
    requires !b.End?
    decreases b, 0
  {
    match b
    case Prim(i, _) => i.ISpan? || i.ICapture? || (i.IOpenCall? && i.key in sure)
    case TestJmp(_, b1, b2, _, _) => NeverFails(b1, sure) && NeverFails(b2, sure)
    case Union(ot, _, first, more, m, els, _, _) =>
      NeverFails(els, sure) || (ot.None? && NeverFails(first, sure) && (m == 0 || NeverFails(more, sure)))
    case Loop(_, _, _) => true
    case LoopHead(_, _, _, _) => true
    case OptHead(_, _, _, _, _) => true
    case _ => false
  }

  /** A union whose last alternative is passed over by verify, and may refer to a rule, does not come to it. */
  predicate Assured(rules: seq<Rule>, b: Block, w: int, sure: set<int>)
    requires AllCompile(rules) && b.Union?
  {
    || b.ot.Some? || !HasCall(b.els) || SeeBody(rules, b, w, {}, 200) != Some(true)
    || (NeverFails(b.first, sure) && (b.m == 0 || NeverFails(b.more, sure)))
  }

  /** What is asked of the parts of a rule, block b at word w. */
  predicate Fit(rules: seq<Rule>, sure: set<int>, b: Block, w: int)
    requires AllCompile(rules)
    decreases b, 2, 0
  {
    if b.End? then true
    else if LooksAhead(b) then
      CheckStep(b.i.ck) >= 1 && b.k.i == IBack(1) && Fit(rules, sure, b.k.k, w + CheckSize(b.i.ck) + 1)
    else FitItem(rules, sure, b, w) && Fit(rules, sure, b.k, w + |ItemWords(b)|)
  }

  predicate FitItem(rules: seq<Rule>, sure: set<int>, b: Block, w: int)
    requires AllCompile(rules) && !b.End?
    decreases b, 1, 0
  {
    match b
    case Prim(i, _) =>
      (i.ICheck? && CheckStep(i.ck) >= 1) || i.ISpan? || i.IFail? || i.ICapture?
      || (i.IOpenCall? && Find(rules, i.key, 0) < |rules|)
    case TestJmp(t, b1, b2, _, _) =>
      && CheckStep(t) >= 1 && !StartsWithBack(b1) && Fit(rules, sure, b1, w + CheckSize(t))
      && Fit(rules, sure, b2, w + CheckSize(t) + |Flat(b1)| + 1)
    case Union(ot, aux, first, _, m, els, _, _) =>
      && aux <= OtStep(ot) && (ot.Some? ==> OtStep(ot) >= 1) && Assured(rules, b, w, sure)
      && Fit(rules, sure, first, w + OtSize(ot) + 1) && FitMore(rules, sure, b, m, w + OtSize(ot) + 1 + |Flat(first)|)
      && Fit(rules, sure, els, w + |ItemWords(b)| - |Flat(els)|)
    case Not(ot, b1, _, _) => (ot.Some? ==> OtStep(ot) >= 1) && Fit(rules, sure, b1, w + OtSize(ot) + 1)
    case NotHead(t, b1, _, _) => CheckStep(t) >= 1 && NoFail(b1)
    case And(b1, _, _) => Fit(rules, sure, b1, w + 1)
    case Loop(b1, _, _) =>
      && Fit(rules, sure, b1, w + 1)
      && (if HasCall(b1) then See(rules, b1, w + 1, {}, 200) == Some(false) else !Nullable(b1))
    case LoopHead(t, b1, _, _) => CheckStep(t) >= 1 && NoFail(b1)
    case OptHead(t, b1, _, _, _) => CheckStep(t) >= 1 && NoFail(b1)
  }

  predicate FitMore(rules: seq<Rule>, sure: set<int>, b: Block, m: nat, w: int)
    requires AllCompile(rules) && b.Union?
    decreases b, 0, m
  {
    m == 0 || (Fit(rules, sure, b.more, w + 1) && FitMore(rules, sure, b, m - 1, w + 1 + |Flat(b.more)|))
  }

  // ---- what verify sees stays when there is more room ----

  lemma {:induction false} SeeMore2(rules: seq<Rule>, b: Block, w: int, open: set<int>, room: nat, open2: set<int>,
      room2: nat)
    requires AllCompile(rules) && open <= open2 && room2 <= room && See(rules, b, w, open2, room2) != None
    ensures See(rules, b, w, open, room) == See(rules, b, w, open2, room2)
    decreases room2, b, 2, 0
  {
    hide AllCompile, ItemWords, Flat, BlockOf, Start, SeeItem;
    if b.End? {
    } else if b.Prim? && b.i.ICheck? {
      if StartsWithBack(b.k) {
        SeeMore2(rules, b.k.k, w + CheckSize(b.i.ck) + 1, open, room, open2, room2);
      }
    } else {
      SeeMoreItem(rules, b, w, open, room, open2, room2);
      if SeeItem(rules, b, w, open2, room2) == Some(true) {
        SeeMore2(rules, b.k, w + |ItemWords(b)|, open, room, open2, room2);
      }
    }
  }

  lemma {:induction false} SeeMoreItem(rules: seq<Rule>, b: Block, w: int, open: set<int>, room: nat, open2: set<int>,
      room2: nat)
    requires AllCompile(rules) && open <= open2 && room2 <= room && !b.End?
    requires SeeItem(rules, b, w, open2, room2) != None
    ensures SeeItem(rules, b, w, open, room) == SeeItem(rules, b, w, open2, room2)
    decreases room2, b, 1, 0
  {
    hide AllCompile, ItemWords, Flat, BlockOf, Start, See;
    if b.Prim? {
      SeePrim(rules, b, w, open, room);
      SeePrim(rules, b, w, open2, room2);
      if b.i.IOpenCall? {
        var k := Find(rules, b.i.key, 0);
        SeeMore2(rules, BlockOf(rules[k].patt), Start(rules, k), open + {w + 1}, room - 1, open2 + {w + 1}, room2 - 1);
      }
    } else if b.TestJmp? {
      if StartsWithBack(b.b1) {
        SeeMore2(rules, b.b1.k, w + CheckSize(b.t) + 1, open, room, open2, room2);
      } else {
        SeeMore2(rules, b.b2, w + CheckSize(b.t) + |Flat(b.b1)| + 1, open, room, open2, room2);
      }
    } else if b.Union? {
      SeeMoreUnion(rules, b, w, open, room, open2, room2);
    } else if b.Not? || b.And? || b.Loop? {
      SeeOver(rules, b, w, open, room);
      SeeOver(rules, b, w, open2, room2);
      if !(b.Not? && b.ot.Some?) { SeeMore2(rules, b.b, w + 1, open, room - 1, open2, room2 - 1); }
    }
  }

  lemma {:induction false} SeeMoreUnion(rules: seq<Rule>, b: Block, w: int, open: set<int>, room: nat, open2: set<int>,
      room2: nat)
    requires AllCompile(rules) && open <= open2 && room2 <= room && b.Union?
    requires SeeItem(rules, b, w, open2, room2) != None
    ensures SeeItem(rules, b, w, open, room) == SeeItem(rules, b, w, open2, room2)
    ensures b.ot.None? ==> room2 > 0 && SeeBody(rules, b, w, open, room) == SeeBody(rules, b, w, open2, room2)
    decreases room2, b, 0, b.m + 1
  {
    hide *;
    SeeUnion(rules, b, w, open, room);
    SeeUnion(rules, b, w, open2, room2);
    var pe := w + |ItemWords(b)| - |Flat(b.els)|;
    if b.ot.Some? {
      SeeMore2(rules, b.els, pe, open, room, open2, room2);
    } else {
      ThenSome(See(rules, b.first, w + 1, open2, room2 - 1),
        SeeMore(rules, b, b.m, w + 1 + |Flat(b.first)|, open2, room2 - 1));
      SeeMore2(rules, b.first, w + 1, open, room - 1, open2, room2 - 1);
      ThenSome(See(rules, b.first, w + 1, open, room - 1),
        SeeMore(rules, b, b.m, w + 1 + |Flat(b.first)|, open, room - 1));
      if See(rules, b.first, w + 1, open2, room2 - 1) == Some(true) {
        SeeMoreMore(rules, b, b.m, w + 1 + |Flat(b.first)|, open, room - 1, open2, room2 - 1);
      }
      if SeeBody(rules, b, w, open2, room2) == Some(false) { SeeMore2(rules, b.els, pe, open, room, open2, room2); }
    }
  }

  lemma ThenSome(v: Option<bool>, next: Option<bool>)
    ensures Then(v, next) == if v == Some(true) then next else v
  {
  }

  lemma {:induction false} SeeMoreMore(rules: seq<Rule>, b: Block, m: nat, w: int, open: set<int>, room: nat,
      open2: set<int>, room2: nat)
    requires AllCompile(rules) && open <= open2 && room2 <= room && b.Union?
             && SeeMore(rules, b, m, w, open2, room2) != None
    ensures SeeMore(rules, b, m, w, open, room) == SeeMore(rules, b, m, w, open2, room2)
    decreases room2, b, 0, m
  {
    hide *;
    SeeMoreIs(rules, b, m, w, open, room);
    SeeMoreIs(rules, b, m, w, open2, room2);
    if m > 0 {
      ThenSome(See(rules, b.more, w + 1, open2, room2), SeeMore(rules, b, m - 1, w + 1 + |Flat(b.more)|, open2, room2));
      ThenSome(See(rules, b.more, w + 1, open, room), SeeMore(rules, b, m - 1, w + 1 + |Flat(b.more)|, open, room));
      SmallerMore(b);
      SeeMore2(rules, b.more, w + 1, open, room, open2, room2);
      if See(rules, b.more, w + 1, open2, room2) == Some(true) {
        SeeMoreMore(rules, b, m - 1, w + 1 + |Flat(b.more)|, open, room, open2, room2);
      }
    }
  }

  lemma SmallerMore(b: Block)
    requires b.Union?
    ensures b.more < b
  {
  }

  // ---- what verify sees of parts without references ----

  lemma MostIs(a: nat, b: nat)
    ensures Most(a, b) >= a && Most(a, b) >= b
  {
  }

  /** A part without references is seen as nullable or not, when there is room. */
  lemma {:induction false} SeeClosed(rules: seq<Rule>, sure: set<int>, b: Block, w: int, open: set<int>, room: nat)
    requires AllCompile(rules) && !HasCall(b) && room >= SaveDepth(b) && Fit(rules, sure, b, w)
    ensures See(rules, b, w, open, room) == Some(Nullable(b))
    decreases b, 2, 0
  {
    hide AllCompile, ItemWords, Flat, SeeItem, FitItem, ItemDepth;
    if b.End? {
    } else if b.Prim? && b.i.ICheck? {
      if StartsWithBack(b.k) { SeeClosed(rules, sure, b.k.k, w + CheckSize(b.i.ck) + 1, open, room); }
    } else {
      MostIs(ItemDepth(b), if ItemNullable(b) then SaveDepth(b.k) else 0);
      SeeClosedItem(rules, sure, b, w, open, room);
      ClosedParts(rules, sure, b, w);
      if ItemNullable(b) { SeeClosed(rules, sure, b.k, w + |ItemWords(b)|, open, room); }
    }
  }

  lemma ClosedParts(rules: seq<Rule>, sure: set<int>, b: Block, w: int)
    requires AllCompile(rules) && !b.End? && !(b.Prim? && b.i.ICheck?) && FitItem(rules, sure, b, w) && !HasCall(b)
    ensures Nullable(b) <==> ItemNullable(b) && Nullable(b.k)
    ensures !HasCall(b.k)
  {
    hide AllCompile, Fit, Assured, Flat;
  }

  lemma {:induction false} SeeClosedItem(rules: seq<Rule>, sure: set<int>, b: Block, w: int, open: set<int>, room: nat)
    requires AllCompile(rules) && !b.End? && !(b.Prim? && b.i.ICheck?) && !HasCall(b) && room >= ItemDepth(b)
             && FitItem(rules, sure, b, w)
    ensures SeeItem(rules, b, w, open, room) == Some(ItemNullable(b))
    decreases b, 1, 0
  {
    hide AllCompile, ItemWords, Flat, BlockOf, Start, See, Assured, Fit;
    if b.Prim? {
      SeePrim(rules, b, w, open, room);
    } else if b.TestJmp? {
      SeeClosed(rules, sure, b.b2, w + CheckSize(b.t) + |Flat(b.b1)| + 1, open, room);
    } else if b.Union? {
      SeeClosedUnion(rules, sure, b, w, open, room);
    } else if b.Not? || b.And? || b.Loop? {
      SeeOver(rules, b, w, open, room);
      if !(b.Not? && b.ot.Some?) { SeeClosed(rules, sure, b.b, w + 1, open, room - 1); }
    }
  }

  lemma {:induction false} SeeClosedUnion(rules: seq<Rule>, sure: set<int>, b: Block, w: int, open: set<int>, room: nat)
    requires AllCompile(rules) && b.Union? && !HasCall(b) && room >= ItemDepth(b) && FitItem(rules, sure, b, w)
    ensures SeeItem(rules, b, w, open, room) == Some(ItemNullable(b))
    decreases b, 0, b.m + 1
  {
    hide AllCompile, ItemWords, Flat, See, Assured, Fit, SeeMore, SaveDepth, SeeItem, Nullable, SeeBody;
    SeeUnion(rules, b, w, open, room);
    var pe := w + |ItemWords(b)| - |Flat(b.els)|;
    var q := w + 1 + |Flat(b.first)|;
    if b.ot.Some? {
      SeeClosed(rules, sure, b.els, pe, open, room);
    } else {
      SeeClosed(rules, sure, b.first, w + 1, open, room - 1);
      if Nullable(b.first) { SeeClosedMore(rules, sure, b, b.m, q, open, room - 1); }
      if !BodyNullable(b) { SeeClosed(rules, sure, b.els, pe, open, room); }
    }
  }

  lemma {:induction false} SeeClosedMore(rules: seq<Rule>, sure: set<int>, b: Block, m: nat, w: int, open: set<int>,
      room: nat)
    requires AllCompile(rules) && b.Union? && FitMore(rules, sure, b, m, w)
    requires m > 0 ==> !HasCall(b.more) && room >= SaveDepth(b.more)
    ensures SeeMore(rules, b, m, w, open, room) == Some(m == 0 || Nullable(b.more))
    decreases b, 0, m
  {
    hide AllCompile, Flat, See, Assured, Fit, SaveDepth, Nullable;
    SeeMoreIs(rules, b, m, w, open, room);
    if m > 0 {
      SmallerMore(b);
      SeeClosed(rules, sure, b.more, w + 1, open, room);
      if Nullable(b.more) { SeeClosedMore(rules, sure, b, m - 1, w + 1 + |Flat(b.more)|, open, room); }
    }
  }

  // ---- a result everywhere ----

  /** What is asked of all rules. */
  ghost predicate Grounded(rules: seq<Rule>, sure: set<int>) {
    && Faithful(rules)
    && (forall k :: 0 <= k < |rules| ==> RuleFit(rules, sure, k))
  }

  predicate RuleFit(rules: seq<Rule>, sure: set<int>, k: nat)
    requires AllCompile(rules) && k < |rules|
  {
    var b := BlockOf(rules[k].patt);
    && Fit(rules, sure, b, Start(rules, k)) && See(rules, b, Start(rules, k), {}, 200) != None
    && (rules[k].key in sure ==> NeverFails(b, sure))
  }

  /** There is a result; it lies ahead, further on if verify has seen so, and is no failure if there is none. */
  ghost predicate Settled(r: Res, i: int, v: Option<bool>, never: bool) {
    && !r.Diverge? && (never ==> !r.Fail?) && (r.Ok? ==> r.j >= i && (v == Some(false) ==> r.j > i))
  }

  /** Calls may nest this deep, from position i on: 201 calls at each position, and `room` at the first. */
  ghost predicate Deep(b: Block, n: nat, left: int, room: nat) {
    HasCall(b) ==> n >= 201 * left + room
  }

  /** The order of the proof at one position: parts without references first, then what verify has seen. */
  function Stage(b: Block, seen: bool): nat {
    if !HasCall(b) then 0 else if seen then 1 else 2
  }

  function Room(b: Block, seen: bool, room: nat): nat {
    if HasCall(b) && seen then room else 0
  }

  /** Where a part is tried: `seen` where verify has seen it with this room, at position i. */
  datatype Spot = Spot(rules: seq<Rule>, sure: set<int>, s: seq<Byte>, n: nat, i: int, seen: bool, open: set<int>,
    room: nat)

  ghost predicate Tried(g: Spot, b: Block, w: int) {
    && Grounded(g.rules, g.sure) && 0 <= g.i <= |g.s| && AllCompile(g.rules)
    && Fit(g.rules, g.sure, b, w)
    && (g.seen ==> See(g.rules, b, w, g.open, g.room) != None && (HasCall(b) ==> g.room <= 200))
    && Deep(b, g.n, |g.s| - g.i, if g.seen then g.room else 201)
  }

  ghost function Seen(g: Spot, b: Block, w: int): Option<bool>
    requires AllCompile(g.rules)
  {
    if g.seen then See(g.rules, b, w, g.open, g.room) else None
  }

  /** What is seen of the first item; a check that does not look ahead consumes. */
  ghost function SeenFirst(g: Spot, b: Block, w: int): Option<bool>
    requires AllCompile(g.rules) && !b.End?
  {
    if !g.seen then None
    else if b.Prim? && b.i.ICheck? then Some(false) else SeeItem(g.rules, b, w, g.open, g.room)
  }

  /** The spot at position j, or further on, where verify has not seen. */
  function Ahead(g: Spot, j: int): Spot {
    if j > g.i then g.(i := j, seen := false) else g
  }

  /** The spot under a choice. */
  function Under(g: Spot): Spot {
    if g.seen && g.room > 0 then g.(room := g.room - 1) else g
  }

  ghost function Env(g: Spot): (x: Subject)
    ensures x.s == g.s
  {
    Within(g.rules, g.s, g.n)
  }

  /** A part tried at or behind the position of the whole, seen there only if the whole is. */
  lemma Part(g: Spot, b: Block, w: int, b1: Block, w1: int, g1: Spot)
    requires Tried(g, b, w) && (HasCall(b1) ==> HasCall(b)) && AllCompile(g.rules) && Fit(g.rules, g.sure, b1, w1)
    requires g1.rules == g.rules && g1.sure == g.sure && g1.s == g.s && g1.n == g.n && g.i <= g1.i <= |g.s|
    requires g1.seen ==> See(g.rules, b1, w1, g1.open, g1.room) != None && (HasCall(b1) ==> g1.room <= 200)
    requires g1.seen && HasCall(b1) && g1.i == g.i && g.seen ==> g1.room <= g.room
    requires !g1.seen && HasCall(b1) && g1.i == g.i ==> !g.seen
    ensures Tried(g1, b1, w1) && Env(g1) == Env(g)
    ensures (|g1.s| - g1.i < |g.s| - g.i
            || (|g1.s| - g1.i == |g.s| - g.i
                && (Stage(b1, g1.seen) < Stage(b, g.seen)
                    || (Stage(b1, g1.seen) == Stage(b, g.seen)
                        && Room(b1, g1.seen, g1.room) <= Room(b, g.seen, g.room)))))
  {
    hide Grounded, AllCompile, Fit, See, HasCall, Within;
  }

  lemma {:induction false} NoFailSettled(b: Block, x: Subject, i: int, caps: seq<Capture>)
    requires NoFail(b) && 0 <= i <= |x.s|
    ensures EvalB(b, x, i, caps).Ok? && EvalB(b, x, i, caps).j >= i
    decreases b
  {
    if !b.End? {
      var r := EvalItem(b, x, i, caps);
      NoFailSettled(b.k, x, r.j, r.caps);
    }
  }

  lemma {:induction false} HeadRounds(b: Block, x: Subject, i: int, caps: seq<Capture>)
    requires b.LoopHead? && NoFail(b.b) && CheckStep(b.t) >= 1 && 0 <= i <= |x.s|
    ensures EvalRounds(b, x, i, caps).Ok? && EvalRounds(b, x, i, caps).j >= i
    decreases |x.s| - i
  {
    hide EvalB;
    if Passes(b.t, x.s, i) {
      NoFailSettled(b.b, x, i + CheckStep(b.t), caps);
      var r := EvalB(b.b, x, i + CheckStep(b.t), caps);
      HeadRounds(b, x, r.j, r.caps);
    }
  }

  lemma {:induction false} HeadOpts(b: Block, n: nat, x: Subject, i: int, caps: seq<Capture>)
    requires b.OptHead? && NoFail(b.b) && 0 <= i <= |x.s|
    ensures EvalOpts(b, n, x, i, caps).Ok? && EvalOpts(b, n, x, i, caps).j >= i
    decreases n
  {
    hide EvalB;
    if n > 0 && Passes(b.t, x.s, i) {
      NoFailSettled(b.b, x, i + CheckStep(b.t), caps);
      var r := EvalB(b.b, x, i + CheckStep(b.t), caps);
      HeadOpts(b, n - 1, x, r.j, r.caps);
    }
  }

  lemma AheadIs(g: Spot, j: int)
    requires j >= g.i
    ensures var g1 := Ahead(g, j);
            && g1.i == j && g1.rules == g.rules && g1.sure == g.sure && g1.s == g.s && g1.n == g.n
            && (j == g.i ==> g1 == g) && (j > g.i ==> !g1.seen)
  {
  }

  lemma TriedParts(g: Spot, b: Block, w: int)
    requires Tried(g, b, w)
    ensures AllCompile(g.rules) && 0 <= g.i <= |g.s| && Grounded(g.rules, g.sure)
    ensures !b.End? && !LooksAhead(b) ==>
            FitItem(g.rules, g.sure, b, w) && Fit(g.rules, g.sure, b.k, w + |ItemWords(b)|)
    ensures !b.End? && !LooksAhead(b) && g.seen && !(b.Prim? && b.i.ICheck?) ==>
            SeeItem(g.rules, b, w, g.open, g.room) != None
    ensures g.seen && HasCall(b) ==> g.room <= 200
  {
    hide Grounded, AllCompile, FitItem, ItemWords, SeeItem, HasCall;
  }

  /** Every part has a result wherever it is tried. */
  lemma {:induction false} TotalBlock(g: Spot, b: Block, w: int, caps: seq<Capture>)
    requires Tried(g, b, w)
    ensures AllCompile(g.rules) && 0 <= g.i <= |g.s|
    ensures Settled(EvalB(b, Env(g), g.i, caps), g.i, Seen(g, b, w), NeverFails(b, g.sure))
    decreases |g.s| - g.i, Stage(b, g.seen), Room(b, g.seen, g.room), b, 3, 0
  {
    hide *;
    TriedParts(g, b, w);
    if b.End? {
      EndSettled(g, b, w, caps);
    } else if LooksAhead(b) {
      TotalLook(g, b, w, caps);
    } else {
      TotalItem(g, b, w, caps);
      var r := EvalItem(b, Env(g), g.i, caps);
      if r.Ok? {
        var g1 := Ahead(g, r.j);
        NextPart(g, b, w, r);
        TotalBlock(g1, b.k, w + |ItemWords(b)|, r.caps);
      }
      JoinSettled(g, b, w, caps);
    }
  }

  lemma EndSettled(g: Spot, b: Block, w: int, caps: seq<Capture>)
    requires b.End? && 0 <= g.i <= |g.s| && AllCompile(g.rules)
    ensures Settled(EvalB(b, Env(g), g.i, caps), g.i, Seen(g, b, w), NeverFails(b, g.sure))
  {
    hide AllCompile, Within;
  }

  lemma {:induction false} TotalLook(g: Spot, b: Block, w: int, caps: seq<Capture>)
    requires Tried(g, b, w) && LooksAhead(b)
    ensures AllCompile(g.rules) && 0 <= g.i <= |g.s|
    ensures Settled(EvalB(b, Env(g), g.i, caps), g.i, Seen(g, b, w), NeverFails(b, g.sure))
    decreases |g.s| - g.i, Stage(b, g.seen), Room(b, g.seen, g.room), b, 2, 0
  {
    hide *;
    TriedParts(g, b, w);
    LookFacts(g, b, w, caps);
    var j := g.i + CheckStep(b.i.ck) - 1;
    if Passes(b.i.ck, g.s, g.i) {
      var g1, w1 := Ahead(g, j), w + CheckSize(b.i.ck) + 1;
      AheadIs(g, j);
      Part(g, b, w, b.k.k, w1, g1);
      TotalBlock(g1, b.k.k, w1, caps);
      LookSettled(g, b, w, g1, w1);
      SettledLater(EvalB(b, Env(g), g.i, caps), g.i, j, Seen(g, b, w), Seen(g1, b.k.k, w1), NeverFails(b.k.k, g.sure));
    } else {
      FailSettled(g.i, Seen(g, b, w));
    }
  }

  lemma FailSettled(i: int, v: Option<bool>)
    ensures Settled(Fail, i, v, false)
  {
  }

  lemma LookFacts(g: Spot, b: Block, w: int, caps: seq<Capture>)
    requires Tried(g, b, w) && LooksAhead(b) && 0 <= g.i <= |g.s| && AllCompile(g.rules)
    ensures b.Prim? && b.i.ICheck? && !b.k.End? && !NeverFails(b, g.sure) && b.k.k < b
            && (HasCall(b.k.k) ==> HasCall(b))
    ensures var j, w1 := g.i + CheckStep(b.i.ck) - 1, w + CheckSize(b.i.ck) + 1;
            && Fit(g.rules, g.sure, b.k.k, w1) && j >= g.i
            && See(g.rules, b, w, g.open, g.room) == See(g.rules, b.k.k, w1, g.open, g.room)
            && (Passes(b.i.ck, g.s, g.i) ==>
              j < |g.s| && EvalB(b, Env(g), g.i, caps) == EvalB(b.k.k, Env(g), j, caps))
            && (!Passes(b.i.ck, g.s, g.i) ==> EvalB(b, Env(g), g.i, caps) == Fail)
    ensures g.seen ==> See(g.rules, b, w, g.open, g.room) != None && (HasCall(b) ==> g.room <= 200)
  {
    hide AllCompile, Grounded, Within;
    if Passes(b.i.ck, g.s, g.i) {
      assert EvalB(b.k, Env(g), g.i + CheckStep(b.i.ck), caps)
        == EvalB(b.k.k, Env(g), g.i + CheckStep(b.i.ck) - 1, caps);
    }
  }

  lemma LookSettled(g: Spot, b: Block, w: int, g1: Spot, w1: int)
    requires AllCompile(g.rules) && LooksAhead(b) && !b.k.End?
             && See(g.rules, b, w, g.open, g.room) == See(g.rules, b.k.k, w1, g.open, g.room)
    requires g1 == Ahead(g, g1.i) && g1.i >= g.i
    ensures g1.i == g.i ==> Seen(g1, b.k.k, w1) == Seen(g, b, w)
  {
    hide AllCompile, See;
  }

  /** What is settled at a later position is settled, if it is seen the same where the positions agree. */
  lemma SettledLater(r: Res, i: int, j: int, v: Option<bool>, v1: Option<bool>, never: bool)
    requires Settled(r, j, v1, never) && i <= j && (i == j ==> v == v1)
    ensures Settled(r, i, v, false) && Settled(r, i, v, never)
  {
  }

  /** The rest of the block, behind its first item. */
  lemma NextPart(g: Spot, b: Block, w: int, r: Res)
    requires Tried(g, b, w) && !b.End? && !LooksAhead(b) && AllCompile(g.rules)
    requires Settled(r, g.i, SeenFirst(g, b, w), NeverItem(b, g.sure)) && r.Ok? && r.j <= |g.s|
    ensures Tried(Ahead(g, r.j), b.k, w + |ItemWords(b)|) && b.k < b
    ensures Env(Ahead(g, r.j)) == Env(g) && Ahead(g, r.j).i == r.j && Ahead(g, r.j).sure == g.sure
    ensures var g1 := Ahead(g, r.j);
            (|g1.s| - g1.i < |g.s| - g.i
            || (|g1.s| - g1.i == |g.s| - g.i
                && (Stage(b.k, g1.seen) < Stage(b, g.seen)
                    || (Stage(b.k, g1.seen) == Stage(b, g.seen)
                        && Room(b.k, g1.seen, g1.room) <= Room(b, g.seen, g.room)))))
  {
    hide *;
    TriedParts(g, b, w);
    SeeIs(g.rules, b, w, g.open, g.room);
    NextFacts(g, b, w, r);
    Part(g, b, w, b.k, w + |ItemWords(b)|, Ahead(g, r.j));
  }

  lemma OneOf(v: Option<bool>)
    ensures v == None || v == Some(true) || v == Some(false)
  {
    if v.Some? && v.value { assert v == Some(true); }
  }

  lemma NextFacts(g: Spot, b: Block, w: int, r: Res)
    requires Tried(g, b, w) && !b.End? && !LooksAhead(b) && AllCompile(g.rules)
    requires Settled(r, g.i, SeenFirst(g, b, w), NeverItem(b, g.sure)) && r.Ok? && r.j <= |g.s|
    ensures r.j >= g.i && b.k < b && (HasCall(b.k) ==> HasCall(b)) && Ahead(g, r.j).i == r.j
    ensures var g1 := Ahead(g, r.j);
            && g1.rules == g.rules && g1.sure == g.sure && g1.s == g.s && g1.n == g.n
            && (g1.seen ==> g.seen && g1.room == g.room && g1.open == g.open && g1.i == g.i)
            && (!g1.seen ==> !g.seen || g1.i > g.i)
            && (g1.seen ==> See(g.rules, b.k, w + |ItemWords(b)|, g1.open, g1.room) != None
                            && (HasCall(b.k) ==> g1.room <= 200))
  {
    hide AllCompile, Grounded, Fit, ItemWords, SeeItem, See, NeverItem;
    SeeIs(g.rules, b, w, g.open, g.room);
    if g.seen { OneOf(SeeItem(g.rules, b, w, g.open, g.room)); }
  }

  lemma JoinSettled(g: Spot, b: Block, w: int, caps: seq<Capture>)
    requires !b.End? && !LooksAhead(b) && AllCompile(g.rules) && 0 <= g.i <= |g.s|
    requires var r := EvalItem(b, Env(g), g.i, caps);
             && Settled(r, g.i, SeenFirst(g, b, w), NeverItem(b, g.sure))
             && (r.Ok? ==>
               Env(Ahead(g, r.j)) == Env(g) && Ahead(g, r.j).i == r.j
               && Settled(EvalB(b.k, Env(Ahead(g, r.j)), r.j, r.caps), r.j,
                          Seen(Ahead(g, r.j), b.k, w + |ItemWords(b)|), NeverFails(b.k, g.sure)))
    ensures Settled(EvalB(b, Env(g), g.i, caps), g.i, Seen(g, b, w), NeverFails(b, g.sure))
  {
    hide AllCompile, EvalItem, ItemWords, SeeItem, NeverItem, Env;
    SeeIs(g.rules, b, w, g.open, g.room);
  }

  // ---- items ----

  lemma {:induction false} TotalItem(g: Spot, b: Block, w: int, caps: seq<Capture>)
    requires Tried(g, b, w) && !b.End? && !LooksAhead(b)
    ensures AllCompile(g.rules) && 0 <= g.i <= |g.s|
    ensures Settled(EvalItem(b, Env(g), g.i, caps), g.i, SeenFirst(g, b, w), NeverItem(b, g.sure))
    decreases |g.s| - g.i, Stage(b, g.seen), Room(b, g.seen, g.room), b, 2, 0
  {
    hide *;
    TriedParts(g, b, w);
    if b.Prim? && b.i.IOpenCall? {
      TotalCall(g, b, w, caps);
    } else if b.Prim? {
      PrimSettled(g, b, w, caps);
    } else if b.TestJmp? {
      TotalTest(g, b, w, caps);
    } else if b.Union? {
      TotalUnion(g, b, w, caps);
    } else if b.Not? || b.And? {
      TotalOver(g, b, w, caps);
    } else if b.Loop? {
      TotalRounds(g, b, w, caps);
      RoundsSettled(g, b, w, caps);
    } else {
      HeadSettled(g, b, w, caps);
    }
  }

  lemma PrimSettled(g: Spot, b: Block, w: int, caps: seq<Capture>)
    requires b.Prim? && !b.i.IOpenCall? && 0 <= g.i <= |g.s| && AllCompile(g.rules) && FitItem(g.rules, g.sure, b, w)
    ensures Settled(EvalItem(b, Env(g), g.i, caps), g.i, SeenFirst(g, b, w), NeverItem(b, g.sure))
  {
    hide AllCompile, Within, See;
    SeePrim(g.rules, b, w, g.open, g.room);
  }

  lemma HeadSettled(g: Spot, b: Block, w: int, caps: seq<Capture>)
    requires (b.NotHead? || b.LoopHead? || b.OptHead?) && 0 <= g.i <= |g.s| && AllCompile(g.rules)
             && FitItem(g.rules, g.sure, b, w)
    ensures Settled(EvalItem(b, Env(g), g.i, caps), g.i, SeenFirst(g, b, w), NeverItem(b, g.sure))
  {
    hide AllCompile, Within, EvalB, EvalRounds, EvalOpts;
    var x := Env(g);
    SeeHead(g.rules, b, w, g.open, g.room);
    if b.LoopHead? {
      HeadRounds(b, x, g.i, caps);
    } else if b.OptHead? {
      HeadOpts(b, b.n, x, g.i, caps);
    } else if Passes(b.t, x.s, g.i) {
      NoFailSettled(b.b, x, g.i + CheckStep(b.t), caps);
    }
  }

  lemma RoundsSettled(g: Spot, b: Block, w: int, caps: seq<Capture>)
    requires b.Loop? && 0 <= g.i <= |g.s| && AllCompile(g.rules)
    requires g.seen ==> SeeItem(g.rules, b, w, g.open, g.room) != None
    requires Settled(EvalRounds(b, Env(g), g.i, caps), g.i, Some(true), true)
    ensures Settled(EvalItem(b, Env(g), g.i, caps), g.i, SeenFirst(g, b, w), NeverItem(b, g.sure))
  {
    hide AllCompile, Env, EvalRounds, See;
    SeeOver(g.rules, b, w, g.open, g.room);
  }

  // ---- references ----

  /** The rule that a reference runs, with the same depth of calls left but one. */
  function Callee(g: Spot, w: int): Spot {
    Spot(g.rules, g.sure, g.s, if g.n > 0 then g.n - 1 else 0, g.i, true, if g.seen then g.open + {w + 1} else {},
         if !g.seen then 200 else if g.room > 0 then g.room - 1 else 0)
  }

  lemma {:induction false} TotalCall(g: Spot, b: Block, w: int, caps: seq<Capture>)
    requires Tried(g, b, w) && b.Prim? && b.i.IOpenCall?
    ensures AllCompile(g.rules) && 0 <= g.i <= |g.s|
    ensures Settled(EvalItem(b, Env(g), g.i, caps), g.i, SeenFirst(g, b, w), NeverItem(b, g.sure))
    decreases |g.s| - g.i, Stage(b, g.seen), Room(b, g.seen, g.room), b, 1, 0
  {
    hide *;
    TriedParts(g, b, w);
    CallFacts(g, b, w);
    var k := Find(g.rules, b.i.key, 0);
    var g1 := Callee(g, w);
    TotalBlock(g1, BlockOf(g.rules[k].patt), Start(g.rules, k), caps);
    CallIs(g, b, w, caps);
    SettledSame(EvalB(BlockOf(g.rules[k].patt), Env(g1), g1.i, caps), g.i, Seen(g1, BlockOf(g.rules[k].patt),
      Start(g.rules, k)), SeenFirst(g, b, w), NeverFails(BlockOf(g.rules[k].patt), g1.sure), NeverItem(b, g.sure));
  }

  lemma SettledSame(r: Res, i: int, v: Option<bool>, v2: Option<bool>, never: bool, never2: bool)
    requires Settled(r, i, v, never) && (v2 == v || v2.None?) && (never2 ==> never)
    ensures Settled(r, i, v2, never2)
  {
  }

  lemma {:induction false} FindHit(rules: seq<Rule>, key: int, from: nat)
    requires from <= |rules|
    ensures var k := Find(rules, key, from); k < |rules| ==> rules[k].key == key
    decreases |rules| - from
  {
    if from < |rules| { FindHit(rules, key, from + 1); }
  }

  lemma CallFacts(g: Spot, b: Block, w: int)
    requires Tried(g, b, w) && b.Prim? && b.i.IOpenCall? && AllCompile(g.rules)
    ensures var k := Find(g.rules, b.i.key, 0);
            && k < |g.rules| && g.n > 0
            && var rule, g1 := BlockOf(g.rules[k].patt), Callee(g, w);
            && Tried(g1, rule, Start(g.rules, k))
            && (|g1.s| - g1.i == |g.s| - g.i)
            && (Stage(rule, g1.seen) < Stage(b, g.seen)
                || (Stage(rule, g1.seen) == Stage(b, g.seen) && Room(rule, g1.seen, g1.room) < Room(b, g.seen, g.room)))
            && SeenFirst(g, b, w) == (if g.seen then Seen(g1, rule, Start(g.rules, k)) else None) && g1.sure == g.sure
            && (NeverItem(b, g.sure) ==> NeverFails(rule, g.sure))
  {
    hide AllCompile, BlockOf, Start, See, Fit, NeverFails, Faithful;
    var k := Find(g.rules, b.i.key, 0);
    SeePrim(g.rules, b, w, g.open, g.room);
    FindHit(g.rules, b.i.key, 0);
    CallNamed(g, b, w);
    assert RuleFit(g.rules, g.sure, k);
  }

  lemma CallNamed(g: Spot, b: Block, w: int)
    requires Tried(g, b, w) && b.Prim? && b.i.IOpenCall? && AllCompile(g.rules)
    ensures Find(g.rules, b.i.key, 0) < |g.rules| && HasCall(b)
    ensures g.seen ==> SeeItem(g.rules, b, w, g.open, g.room) != None
  {
    hide AllCompile, BlockOf, Start, See, SeeItem, Grounded, Fit, ItemWords;
    TriedParts(g, b, w);
  }

  /** A reference does what the block of its rule does. */
  lemma CallIs(g: Spot, b: Block, w: int, caps: seq<Capture>)
    requires Grounded(g.rules, g.sure) && b.Prim? && b.i.IOpenCall? && 0 <= g.i <= |g.s| && g.n > 0
    requires Find(g.rules, b.i.key, 0) < |g.rules|
    ensures var k := Find(g.rules, b.i.key, 0);
            EvalItem(b, Env(g), g.i, caps) == EvalB(BlockOf(g.rules[k].patt), Env(Callee(g, w)), g.i, caps)
            && Callee(g, w).i == g.i
  {
    hide AllCompile, Faithful, RuleFit, Eval, EvalB, BlockOf, Within;
    var k := Find(g.rules, b.i.key, 0);
    ReferredIs(g.rules, g.s, g.n, b.i.key, g.i);
    CalledIs(g.rules, g.s, g.n, b.i.key, g.i);
    RuleAgrees(g.rules, k, Within(g.rules, g.s, g.n - 1), g.i, caps);
  }

  lemma RuleAgrees(rules: seq<Rule>, k: nat, x: Subject, i: int, caps: seq<Capture>)
    requires Faithful(rules) && k < |rules| && 0 <= i <= |x.s|
    ensures Agrees(EvalB(BlockOf(rules[k].patt), x, i, caps), Eval(rules[k].patt, x, i), caps)
  {
    hide *;
    FaithfulParts(rules, k);
    CompiledParts(rules[k].patt);
    MeansImpl(BlockOf(rules[k].patt), Compile(rules[k].patt).code, rules[k].patt);
    Agree(BlockOf(rules[k].patt), rules[k].patt, x, i, caps);
  }

  // ---- tests and predicates ----

  lemma {:induction false} TotalTest(g: Spot, b: Block, w: int, caps: seq<Capture>)
    requires Tried(g, b, w) && b.TestJmp?
    ensures AllCompile(g.rules) && 0 <= g.i <= |g.s|
    ensures Settled(EvalItem(b, Env(g), g.i, caps), g.i, SeenFirst(g, b, w), NeverItem(b, g.sure))
    decreases |g.s| - g.i, Stage(b, g.seen), Room(b, g.seen, g.room), b, 1, 0
  {
    hide *;
    TriedParts(g, b, w);
    TestParts(g, b, w, caps);
    if Passes(b.t, g.s, g.i) {
      var g1, w1 := Ahead(g, g.i + CheckStep(b.t)), w + CheckSize(b.t);
      Part(g, b, w, b.b1, w1, g1);
      TotalBlock(g1, b.b1, w1, caps);
      SettledLater(EvalItem(b, Env(g), g.i, caps), g.i, g1.i, SeenFirst(g, b, w), Seen(g1, b.b1, w1),
        NeverFails(b.b1, g.sure));
      SettledSame(EvalItem(b, Env(g), g.i, caps), g.i, SeenFirst(g, b, w), SeenFirst(g, b, w), NeverFails(b.b1, g.sure),
        NeverItem(b, g.sure));
    } else {
      var w1 := w + CheckSize(b.t) + |Flat(b.b1)| + 1;
      Part(g, b, w, b.b2, w1, g);
      TotalBlock(g, b.b2, w1, caps);
      SettledSame(EvalItem(b, Env(g), g.i, caps), g.i, Seen(g, b.b2, w1), SeenFirst(g, b, w), NeverFails(b.b2, g.sure),
        NeverItem(b, g.sure));
    }
  }

  lemma TestParts(g: Spot, b: Block, w: int, caps: seq<Capture>)
    requires Tried(g, b, w) && b.TestJmp? && AllCompile(g.rules) && 0 <= g.i <= |g.s|
    ensures b.b1 < b && b.b2 < b && (HasCall(b.b1) || HasCall(b.b2) ==> HasCall(b))
    ensures Fit(g.rules, g.sure, b.b1, w + CheckSize(b.t))
            && Fit(g.rules, g.sure, b.b2, w + CheckSize(b.t) + |Flat(b.b1)| + 1)
    ensures Ahead(g, g.i + CheckStep(b.t)).i == g.i + CheckStep(b.t) && !Ahead(g, g.i + CheckStep(b.t)).seen
            && CheckStep(b.t) >= 1
    ensures Ahead(g, g.i + CheckStep(b.t)).rules == g.rules && Ahead(g, g.i + CheckStep(b.t)).sure == g.sure
            && Ahead(g, g.i + CheckStep(b.t)).s == g.s && Ahead(g, g.i + CheckStep(b.t)).n == g.n
    ensures Passes(b.t, g.s, g.i) ==>
            g.i + CheckStep(b.t) <= |g.s|
              && EvalItem(b, Env(g), g.i, caps) == EvalB(b.b1, Env(g), g.i + CheckStep(b.t), caps)
    ensures !Passes(b.t, g.s, g.i) ==> EvalItem(b, Env(g), g.i, caps) == EvalB(b.b2, Env(g), g.i, caps)
    ensures var w1 := w + CheckSize(b.t) + |Flat(b.b1)| + 1;
            && (g.seen ==> See(g.rules, b.b2, w1, g.open, g.room) != None && (HasCall(b) ==> g.room <= 200))
            && SeenFirst(g, b, w) == Seen(g, b.b2, w1)
    ensures NeverItem(b, g.sure) ==> NeverFails(b.b1, g.sure) && NeverFails(b.b2, g.sure)
  {
    hide AllCompile, Grounded, Within, Flat, ItemWords, EvalB, NeverFails;
    SeeTest(g.rules, b, w, g.open, g.room);
    TriedParts(g, b, w);
  }

  /** A not-predicate or an and-predicate. */
  lemma {:induction false} TotalOver(g: Spot, b: Block, w: int, caps: seq<Capture>)
    requires Tried(g, b, w) && (b.Not? || b.And?)
    ensures AllCompile(g.rules) && 0 <= g.i <= |g.s|
    ensures Settled(EvalItem(b, Env(g), g.i, caps), g.i, SeenFirst(g, b, w), NeverItem(b, g.sure))
    decreases |g.s| - g.i, Stage(b, g.seen), Room(b, g.seen, g.room), b, 1, 0
  {
    hide *;
    TriedParts(g, b, w);
    OverParts(g, b, w);
    if b.Not? && b.ot.Some? {
      if OtPasses(b.ot, Env(g), g.i) {
        var g1, w1 := Ahead(g, g.i + OtStep(b.ot)), w + OtSize(b.ot) + 1;
        OtFits(g, b.ot);
        Part(g, b, w, b.b, w1, g1);
        TotalBlock(g1, b.b, w1, caps);
        NotLater(g, b, w, caps, Seen(g1, b.b, w1), NeverFails(b.b, g1.sure));
      } else {
        NotPassed(g, b, w, caps);
      }
    } else {
      var g1 := Under(g);
      Part(g, b, w, b.b, w + 1, g1);
      TotalBlock(g1, b.b, w + 1, caps);
      OverSettled(g, b, w, caps, Seen(g1, b.b, w + 1), NeverFails(b.b, g1.sure));
    }
  }

  lemma OverParts(g: Spot, b: Block, w: int)
    requires Tried(g, b, w) && (b.Not? || b.And?) && AllCompile(g.rules) && 0 <= g.i <= |g.s|
    ensures b.b < b && (HasCall(b.b) ==> HasCall(b))
    ensures b.Not? && b.ot.Some? ==> OtStep(b.ot) >= 1 && Fit(g.rules, g.sure, b.b, w + OtSize(b.ot) + 1)
    ensures !(b.Not? && b.ot.Some?) ==>
            var g1 := Under(g);
            && Fit(g.rules, g.sure, b.b, w + 1) && g1.i == g.i && g1.rules == g.rules && g1.sure == g.sure
            && g1.s == g.s && g1.n == g.n && g1.seen == g.seen && g1.room <= g.room
            && (g.seen ==> See(g.rules, b.b, w + 1, g1.open, g1.room) != None && (HasCall(b.b) ==> g1.room <= 200))
    ensures Ahead(g, g.i).i == g.i
  {
    hide AllCompile, Grounded, Flat, ItemWords;
    SeeOver(g.rules, b, w, g.open, g.room);
    TriedParts(g, b, w);
  }

  lemma OtFits(g: Spot, ot: Option<Check>)
    requires ot.Some? && OtPasses(ot, Env(g), g.i) && 0 <= g.i <= |g.s| && OtStep(ot) >= 1
    ensures g.i < g.i + OtStep(ot) <= |g.s|
    ensures var g1 := Ahead(g, g.i + OtStep(ot));
            g1.i == g.i + OtStep(ot) && !g1.seen && g1.rules == g.rules && g1.sure == g.sure && g1.s == g.s
              && g1.n == g.n
  {
    hide Within;
  }

  lemma NotLater(g: Spot, b: Block, w: int, caps: seq<Capture>, v: Option<bool>, never: bool)
    requires b.Not? && b.ot.Some? && 0 <= g.i <= |g.s| && AllCompile(g.rules) && OtPasses(b.ot, Env(g), g.i)
             && g.i + OtStep(b.ot) <= |g.s|
    requires Settled(EvalB(b.b, Env(g), g.i + OtStep(b.ot), caps), g.i + OtStep(b.ot), v, never)
    ensures Settled(EvalItem(b, Env(g), g.i, caps), g.i, SeenFirst(g, b, w), NeverItem(b, g.sure))
  {
    hide AllCompile, Env, EvalB, See;
    SeeOver(g.rules, b, w, g.open, g.room);
  }

  lemma NotPassed(g: Spot, b: Block, w: int, caps: seq<Capture>)
    requires b.Not? && b.ot.Some? && 0 <= g.i <= |g.s| && AllCompile(g.rules) && !OtPasses(b.ot, Env(g), g.i)
    ensures Settled(EvalItem(b, Env(g), g.i, caps), g.i, SeenFirst(g, b, w), NeverItem(b, g.sure))
  {
    hide AllCompile, Env, EvalB, See;
    SeeOver(g.rules, b, w, g.open, g.room);
  }

  lemma OverSettled(g: Spot, b: Block, w: int, caps: seq<Capture>, v: Option<bool>, never: bool)
    requires (b.Not? || b.And?) && 0 <= g.i <= |g.s| && AllCompile(g.rules) && (b.Not? ==> b.ot.None?)
    requires Settled(EvalB(b.b, Env(g), g.i, caps), g.i, v, never)
    ensures Settled(EvalItem(b, Env(g), g.i, caps), g.i, SeenFirst(g, b, w), NeverItem(b, g.sure))
  {
    hide AllCompile, Env, EvalB, See;
    SeeOver(g.rules, b, w, g.open, g.room);
  }

  // ---- loops ----

  /** Where the body of a loop is known to consume. */
  function Round(g: Spot, b: Block): Spot
    requires b.Loop?
  {
    if !HasCall(b.b) then g.(seen := true, open := {}, room := SaveDepth(b.b))
    else if g.seen then Under(g) else g.(seen := true, open := {}, room := 200)
  }

  lemma {:induction false} TotalRounds(g: Spot, b: Block, w: int, caps: seq<Capture>)
    requires Tried(g, b, w) && b.Loop?
    ensures AllCompile(g.rules) && 0 <= g.i <= |g.s|
    ensures Settled(EvalRounds(b, Env(g), g.i, caps), g.i, Some(true), true)
    decreases |g.s| - g.i, Stage(b, g.seen), Room(b, g.seen, g.room), b, 1, 0
  {
    hide *;
    TriedParts(g, b, w);
    var g1 := Round(g, b);
    LoopFacts(g, b, w);
    Part(g, b, w, b.b, w + 1, g1);
    TotalBlock(g1, b.b, w + 1, caps);
    RoundIs(g, b, caps, NeverFails(b.b, g1.sure));
    var r := EvalB(b.b, Env(g), g.i, caps);
    if r.Ok? {
      var g2 := Ahead(g, r.j);
      AheadIs(g, r.j);
      Part(g, b, w, b, w, g2);
      TotalRounds(g2, b, w, r.caps);
      SettledLater(EvalRounds(b, Env(g), g.i, caps), g.i, r.j, Some(true), Some(true), true);
    }
  }

  lemma LoopFacts(g: Spot, b: Block, w: int)
    requires Tried(g, b, w) && b.Loop? && AllCompile(g.rules)
    ensures Fit(g.rules, g.sure, b.b, w + 1) && Fit(g.rules, g.sure, b, w) && b.b < b && (HasCall(b.b) ==> HasCall(b))
    ensures var g1 := Round(g, b);
            && g1.i == g.i && g1.rules == g.rules && g1.sure == g.sure && g1.s == g.s && g1.n == g.n && g1.seen
            && (HasCall(b.b) ==> g1.room <= 200 && (g.seen ==> g1.room <= g.room))
            && See(g.rules, b.b, w + 1, g1.open, g1.room) == Some(false) && Seen(g1, b.b, w + 1) == Some(false)
  {
    hide AllCompile, Grounded, Flat, ItemWords, See, Nullable, SaveDepth;
    SeeOver(g.rules, b, w, g.open, g.room);
    LoopFit(g, b, w);
    if !HasCall(b.b) {
      SeeClosed(g.rules, g.sure, b.b, w + 1, {}, SaveDepth(b.b));
    } else if g.seen {
      SeeMore2(g.rules, b.b, w + 1, {}, 200, g.open, g.room - 1);
    }
  }

  lemma LoopFit(g: Spot, b: Block, w: int)
    requires Tried(g, b, w) && b.Loop? && AllCompile(g.rules)
    ensures Fit(g.rules, g.sure, b.b, w + 1)
    ensures if HasCall(b.b) then See(g.rules, b.b, w + 1, {}, 200) == Some(false) else !Nullable(b.b)
    ensures g.seen ==> SeeItem(g.rules, b, w, g.open, g.room) != None
    ensures g.seen && HasCall(b) ==> g.room <= 200
  {
    hide AllCompile, Grounded, Flat, ItemWords, See, Nullable, HasCall;
    TriedParts(g, b, w);
  }

  lemma RoundIs(g: Spot, b: Block, caps: seq<Capture>, never: bool)
    requires b.Loop? && 0 <= g.i <= |g.s| && Env(Round(g, b)) == Env(g) && Round(g, b).i == g.i
    requires Settled(EvalB(b.b, Env(Round(g, b)), g.i, caps), g.i, Some(false), never)
    ensures var r := EvalB(b.b, Env(g), g.i, caps);
            && (r.Ok? ==>
                 r.j > g.i && r.j <= |g.s|
                 && EvalRounds(b, Env(g), g.i, caps) == EvalRounds(b, Env(g), r.j, r.caps))
            && (!r.Ok? ==> Settled(EvalRounds(b, Env(g), g.i, caps), g.i, Some(true), true))
  {
    hide Env, EvalB;
  }

  // ---- unions ----

  /** Does verify go on with the last alternative, or is that of no matter? */
  ghost predicate ElseOpen(g: Spot, b: Block, w: int)
    requires AllCompile(g.rules) && b.Union?
  {
    g.seen ==> b.ot.Some? || !HasCall(b.els) || (g.room > 0 && SeeBody(g.rules, b, w, g.open, g.room) == Some(false))
  }

  /** Where the last alternative is tried. */
  ghost function ElseSpot(g: Spot, b: Block, w: int): Spot
    requires AllCompile(g.rules) && b.Union?
  {
    if b.ot.None? && g.seen && !(g.room > 0 && SeeBody(g.rules, b, w, g.open, g.room) == Some(false)) then
      g.(seen := false)
    else g
  }

  lemma UnionParts(g: Spot, b: Block, w: int)
    requires Tried(g, b, w) && b.Union? && AllCompile(g.rules)
    ensures b.first < b && b.els < b && b.more < b
    ensures HasCall(b.first) || (b.m > 0 && HasCall(b.more)) || HasCall(b.els) ==> HasCall(b)
    ensures Fit(g.rules, g.sure, b.first, w + OtSize(b.ot) + 1)
            && FitMore(g.rules, g.sure, b, b.m, w + OtSize(b.ot) + 1 + |Flat(b.first)|)
            && Fit(g.rules, g.sure, b.els, w + |ItemWords(b)| - |Flat(b.els)|) && Fit(g.rules, g.sure, b, w)
    ensures b.aux <= OtStep(b.ot) && (b.ot.Some? ==> OtStep(b.ot) >= 1) && Assured(g.rules, b, w, g.sure)
    ensures b.ot.None? ==> OtSize(b.ot) == 0 && OtStep(b.ot) == 0
    ensures g.seen ==> SeeItem(g.rules, b, w, g.open, g.room) != None && See(g.rules, b, w, g.open, g.room) != None
    ensures g.seen && HasCall(b) ==> g.room <= 200
  {
    hide AllCompile, Grounded, Flat, ItemWords, Assured, FitMore, SeeItem;
    TriedParts(g, b, w);
  }

  /** Verify passes over the last alternative only if nothing in front of it fails, or it refers to no rule. */
  lemma ElseAllowed(g: Spot, b: Block, w: int)
    requires Tried(g, b, w) && b.Union? && AllCompile(g.rules)
    ensures ElseOpen(g, b, w) || (b.ot.None? && NeverFails(b.first, g.sure) && (b.m == 0 || NeverFails(b.more, g.sure)))
  {
    hide AllCompile, Tried, SeeBody, NeverFails, HasCall, Fit, See, SeeMore, Flat, ItemWords, SeeItem;
    UnionParts(g, b, w);
    SeeUnion(g.rules, b, w, g.open, g.room);
    if g.seen && b.ot.None? && HasCall(b.els) {
      OneOf(SeeBody(g.rules, b, w, g.open, g.room));
      SeeMoreUnion(g.rules, b, w, {}, 200, g.open, g.room);
    }
  }

  lemma {:induction false} TotalElse(g: Spot, b: Block, w: int, caps: seq<Capture>)
    requires Tried(g, b, w) && b.Union? && AllCompile(g.rules) && ElseOpen(g, b, w)
    ensures 0 <= g.i <= |g.s|
    ensures Settled(EvalB(b.els, Env(g), g.i, caps), g.i, SeenElse(g, b, w), NeverFails(b.els, g.sure))
    decreases |g.s| - g.i, Stage(b, g.seen), Room(b, g.seen, g.room), b, 0, 0
  {
    hide *;
    TriedParts(g, b, w);
    UnionParts(g, b, w);
    ElseFacts(g, b, w);
    var g1, w1 := ElseSpot(g, b, w), w + |ItemWords(b)| - |Flat(b.els)|;
    Part(g, b, w, b.els, w1, g1);
    TotalBlock(g1, b.els, w1, caps);
  }

  ghost function SeenElse(g: Spot, b: Block, w: int): Option<bool>
    requires AllCompile(g.rules) && b.Union?
  {
    Seen(ElseSpot(g, b, w), b.els, w + |ItemWords(b)| - |Flat(b.els)|)
  }

  lemma ElseFacts(g: Spot, b: Block, w: int)
    requires b.Union? && AllCompile(g.rules) && ElseOpen(g, b, w)
    requires g.seen ==> SeeItem(g.rules, b, w, g.open, g.room) != None
    requires (HasCall(b.els) ==> HasCall(b)) && (g.seen && HasCall(b) ==> g.room <= 200)
    ensures var g1, w1 := ElseSpot(g, b, w), w + |ItemWords(b)| - |Flat(b.els)|;
            && g1.i == g.i && g1.rules == g.rules && g1.sure == g.sure && g1.s == g.s && g1.n == g.n
            && (g1.seen ==> g.seen && g1.room == g.room && See(g.rules, b.els, w1, g1.open, g1.room) != None)
            && (g1.seen && HasCall(b.els) ==> g1.room <= 200)
            && (!g1.seen && HasCall(b.els) ==> !g.seen)
            && SeenElse(g, b, w) == Seen(g1, b.els, w1)
  {
    hide AllCompile, See, SeeItem, HasCall, Flat, ItemWords, SeeBody;
    SeeUnion(g.rules, b, w, g.open, g.room);
  }

  /** The copies of a union's first alternative that are left, at their spot. */
  ghost predicate MoreSeen(g: Spot, b: Block, m: nat, w: int, q: int)
    requires AllCompile(g.rules) && b.Union?
  {
    && m <= b.m && FitMore(g.rules, g.sure, b, m, q)
    && (g.seen ==> b.ot.None? && g.room > 0
                   && SeeMore(g.rules, b, m, q, g.open, g.room - 1) == SeeBody(g.rules, b, w, g.open, g.room))
  }

  lemma {:induction false} TotalMore(g: Spot, b: Block, m: nat, w: int, q: int, caps: seq<Capture>)
    requires Tried(g, b, w) && b.Union? && AllCompile(g.rules) && MoreSeen(g, b, m, w, q)
    ensures 0 <= g.i <= |g.s|
    ensures Settled(EvalMore(b, m, Env(g), g.i, caps), g.i, SeenFirst(g, b, w), NeverItem(b, g.sure))
    decreases |g.s| - g.i, Stage(b, g.seen), Room(b, g.seen, g.room), b, 1, m
  {
    hide *;
    TriedParts(g, b, w);
    UnionParts(g, b, w);
    NeverElse(b, g.sure);
    if m == 0 {
      MoreDone(g, b, w, q, caps);
    } else {
      var g1 := Under(g);
      MoreFacts(g, b, m, w, q);
      Part(g, b, w, b.more, q + 1, g1);
      TotalBlock(g1, b.more, q + 1, caps);
      var r := EvalB(b.more, Env(g), g.i, caps);
      MoreIs(g, b, m, caps, Seen(g1, b.more, q + 1), NeverFails(b.more, g.sure));
      if r.Ok? {
        var g2 := Ahead(g, r.j);
        MoreNext(g, b, m, w, q, r, NeverFails(b.more, g.sure));
        Again(g, b, w, r.j);
        TotalMore(g2, b, m - 1, w, q + 1 + |Flat(b.more)|, r.caps);
        SettledLater(EvalMore(b, m, Env(g), g.i, caps), g.i, r.j, SeenFirst(g, b, w), SeenFirst(g2, b, w),
          NeverItem(b, g.sure));
      } else {
        ElseAllowed(g, b, w);
        TotalElse(g, b, w, caps);
        ElseSettled(g, b, w, EvalMore(b, m, Env(g), g.i, caps));
      }
    }
  }

  lemma MoreDone(g: Spot, b: Block, w: int, q: int, caps: seq<Capture>)
    requires b.Union? && AllCompile(g.rules) && MoreSeen(g, b, 0, w, q) && 0 <= g.i <= |g.s|
    ensures Settled(EvalMore(b, 0, Env(g), g.i, caps), g.i, SeenFirst(g, b, w), NeverItem(b, g.sure))
  {
    hide AllCompile, SeeItem, See, SeeBody, Env, Flat, ItemWords, FitMore;
    SeeUnion(g.rules, b, w, g.open, g.room);
  }

  lemma MoreFacts(g: Spot, b: Block, m: nat, w: int, q: int)
    requires b.Union? && AllCompile(g.rules) && MoreSeen(g, b, m, w, q) && m > 0
    requires g.seen ==> SeeItem(g.rules, b, w, g.open, g.room) != None
    requires g.seen && HasCall(b) ==> g.room <= 200
    requires b.m > 0 && HasCall(b.more) ==> HasCall(b)
    ensures HasCall(b.more) ==> HasCall(b)
    ensures Fit(g.rules, g.sure, b.more, q + 1) && b.m > 0
    ensures var g1 := Under(g);
            && g1.i == g.i && g1.rules == g.rules && g1.sure == g.sure && g1.s == g.s && g1.n == g.n
              && g1.seen == g.seen
            && g1.room <= g.room
            && (g1.seen ==> See(g.rules, b.more, q + 1, g1.open, g1.room) != None)
            && (g1.seen && HasCall(b.more) ==> g1.room <= 200)
  {
    hide AllCompile, See, HasCall, Flat, ItemWords, SeeBody, SeeItem, Fit;
    SeeUnion(g.rules, b, w, g.open, g.room);
    if g.seen { SeeMoreIs(g.rules, b, m, q, g.open, g.room - 1); }
  }

  lemma MoreIs(g: Spot, b: Block, m: nat, caps: seq<Capture>, v: Option<bool>, never: bool)
    requires b.Union? && m > 0 && 0 <= g.i <= |g.s| && Env(Under(g)) == Env(g) && Under(g).i == g.i
    requires Settled(EvalB(b.more, Env(Under(g)), g.i, caps), g.i, v, never)
    ensures var r := EvalB(b.more, Env(g), g.i, caps);
            && (r.Ok? ==>
                 g.i <= r.j <= |g.s|
                 && EvalMore(b, m, Env(g), g.i, caps) == EvalMore(b, m - 1, Env(g), r.j, r.caps))
            && (!r.Ok? ==> !never && EvalMore(b, m, Env(g), g.i, caps) == EvalB(b.els, Env(g), g.i, caps))
            && Settled(r, g.i, v, never)
  {
    hide Env, EvalB;
  }

  lemma MoreNext(g: Spot, b: Block, m: nat, w: int, q: int, r: Res, never: bool)
    requires b.Union? && AllCompile(g.rules) && MoreSeen(g, b, m, w, q) && m > 0
    requires g.seen ==> SeeItem(g.rules, b, w, g.open, g.room) != None
    requires r.Ok? && Settled(r, g.i, Seen(Under(g), b.more, q + 1), never)
    ensures Ahead(g, r.j).rules == g.rules && MoreSeen(Ahead(g, r.j), b, m - 1, w, q + 1 + |Flat(b.more)|)
    ensures Ahead(g, r.j).i == r.j && (r.j == g.i ==> Ahead(g, r.j) == g)
  {
    hide AllCompile, See, Flat, ItemWords, SeeBody, SeeItem, Fit;
    SeeUnion(g.rules, b, w, g.open, g.room);
    if g.seen {
      SeeMoreIs(g.rules, b, m, q, g.open, g.room - 1);
      OneOf(See(g.rules, b.more, q + 1, g.open, g.room - 1));
    }
  }

  /** The same union, tried at a later position. */
  lemma Again(g: Spot, b: Block, w: int, j: int)
    requires Tried(g, b, w) && g.i <= j <= |g.s| && AllCompile(g.rules)
    ensures Tried(Ahead(g, j), b, w) && Env(Ahead(g, j)) == Env(g) && Ahead(g, j).i == j
    ensures var g1 := Ahead(g, j);
            (|g1.s| - g1.i < |g.s| - g.i
            || (|g1.s| - g1.i == |g.s| - g.i
                && (Stage(b, g1.seen) < Stage(b, g.seen)
                    || (Stage(b, g1.seen) == Stage(b, g.seen)
                        && Room(b, g1.seen, g1.room) <= Room(b, g.seen, g.room)))))
    ensures Ahead(g, j).sure == g.sure && Ahead(g, j).s == g.s
  {
    hide *;
    AgainFacts(g, b, w, j);
    Part(g, b, w, b, w, Ahead(g, j));
  }

  lemma AgainFacts(g: Spot, b: Block, w: int, j: int)
    requires Tried(g, b, w) && g.i <= j <= |g.s| && AllCompile(g.rules)
    ensures Fit(g.rules, g.sure, b, w)
    ensures var g1 := Ahead(g, j);
            && g1.i == j && g1.rules == g.rules && g1.sure == g.sure && g1.s == g.s && g1.n == g.n
            && (g1.seen ==> g1 == g && See(g.rules, b, w, g1.open, g1.room) != None && (HasCall(b) ==> g1.room <= 200))
            && (!g1.seen ==> !g.seen || j > g.i)
  {
    hide AllCompile, Grounded, Fit, See, HasCall;
  }

  /** What the last alternative does is settled for the union. */
  lemma ElseSettled(g: Spot, b: Block, w: int, r: Res)
    requires b.Union? && AllCompile(g.rules) && ElseOpen(g, b, w)
    requires g.seen ==> SeeItem(g.rules, b, w, g.open, g.room) != None
    requires Settled(r, g.i, SeenElse(g, b, w), NeverFails(b.els, g.sure))
    requires NeverItem(b, g.sure) ==> NeverFails(b.els, g.sure)
    ensures Settled(r, g.i, SeenFirst(g, b, w), NeverItem(b, g.sure))
  {
    hide AllCompile, See, SeeItem, HasCall, Flat, ItemWords, SeeBody, NeverFails, NeverItem;
    SeeUnion(g.rules, b, w, g.open, g.room);
  }

  lemma NeverElse(b: Block, sure: set<int>)
    requires b.Union?
    ensures NeverItem(b, sure) <==>
            NeverFails(b.els, sure)
              || (b.ot.None? && NeverFails(b.first, sure) && (b.m == 0 || NeverFails(b.more, sure)))
  {
    hide NeverFails;
  }

  lemma {:induction false} TotalUnion(g: Spot, b: Block, w: int, caps: seq<Capture>)
    requires Tried(g, b, w) && b.Union?
    ensures AllCompile(g.rules) && 0 <= g.i <= |g.s|
    ensures Settled(EvalItem(b, Env(g), g.i, caps), g.i, SeenFirst(g, b, w), NeverItem(b, g.sure))
    decreases |g.s| - g.i, Stage(b, g.seen), Room(b, g.seen, g.room), b, 1, b.m + 1
  {
    hide *;
    TriedParts(g, b, w);
    UnionParts(g, b, w);
    NeverElse(b, g.sure);
    var q, w1 := w + OtSize(b.ot) + 1 + |Flat(b.first)|, w + OtSize(b.ot) + 1;
    var item := EvalItem(b, Env(g), g.i, caps);
    UnionIs(g, b, caps);
    if !OtPasses(b.ot, Env(g), g.i) {
      OtElse(g, b, w);
      TotalElse(g, b, w, caps);
      ElseSettled(g, b, w, item);
    } else if b.ot.Some? {
      var g1 := Ahead(g, g.i + OtStep(b.ot));
      OtFits(g, b.ot);
      Part(g, b, w, b.first, w1, g1);
      TotalBlock(g1, b.first, w1, caps);
      var r := EvalB(b.first, Env(g), g1.i, caps);
      FirstSettled(r, g1.i, Seen(g1, b.first, w1), NeverFails(b.first, g1.sure));
      if r.Ok? {
        Again(g, b, w, r.j);
        OtMore(g, b, w, r.j, q);
        TotalMore(Ahead(g, r.j), b, b.m, w, q, r.caps);
        SettledLater(item, g.i, r.j, SeenFirst(g, b, w), SeenFirst(Ahead(g, r.j), b, w), NeverItem(b, g.sure));
      } else {
        var back := g.i + OtStep(b.ot) - b.aux;
        var g2 := Ahead(g, back);
        Again(g, b, w, back);
        TriedParts(g2, b, w);
        UnionParts(g2, b, w);
        OtElse(g2, b, w);
        TotalElse(g2, b, w, caps);
        ElseSettled(g2, b, w, item);
        AheadIs(g, back);
        SettledLater(item, g.i, back, SeenFirst(g, b, w), SeenFirst(g2, b, w), NeverItem(b, g.sure));
      }
    } else {
      var g1 := Under(g);
      UnderFacts(g, b, w);
      Part(g, b, w, b.first, w1, g1);
      TotalBlock(g1, b.first, w1, caps);
      var r := EvalB(b.first, Env(g), g.i, caps);
      FirstSettled(r, g.i, Seen(g1, b.first, w1), NeverFails(b.first, g.sure));
      if r.Ok? {
        Again(g, b, w, r.j);
        UnderMore(g, b, w, r, NeverFails(b.first, g.sure));
        AheadIs(g, r.j);
        TotalMore(Ahead(g, r.j), b, b.m, w, q, r.caps);
        SettledLater(item, g.i, r.j, SeenFirst(g, b, w), SeenFirst(Ahead(g, r.j), b, w), NeverItem(b, g.sure));
      } else {
        ElseAllowed(g, b, w);
        TotalElse(g, b, w, caps);
        ElseSettled(g, b, w, item);
      }
    }
  }

  lemma FirstSettled(r: Res, i: int, v: Option<bool>, never: bool)
    requires Settled(r, i, v, never)
    ensures !r.Diverge? && (r.Ok? ==> r.j >= i) && (r.Fail? ==> !never)
  {
  }

  lemma OtElse(g: Spot, b: Block, w: int)
    requires AllCompile(g.rules) && b.Union? && b.ot.Some?
    ensures ElseOpen(g, b, w)
  {
    hide AllCompile;
  }

  lemma OtMore(g: Spot, b: Block, w: int, j: int, q: int)
    requires AllCompile(g.rules) && b.Union? && b.ot.Some? && j > g.i && FitMore(g.rules, g.sure, b, b.m, q)
    ensures Ahead(g, j).rules == g.rules && MoreSeen(Ahead(g, j), b, b.m, w, q)
  {
    hide AllCompile, FitMore;
  }

  lemma UnderFacts(g: Spot, b: Block, w: int)
    requires b.Union? && b.ot.None? && AllCompile(g.rules)
    requires g.seen ==> SeeItem(g.rules, b, w, g.open, g.room) != None
    requires g.seen && HasCall(b) ==> g.room <= 200
    requires HasCall(b.first) ==> HasCall(b)
    ensures var g1 := Under(g);
            && g1.i == g.i && g1.rules == g.rules && g1.sure == g.sure && g1.s == g.s && g1.n == g.n
              && g1.seen == g.seen
            && g1.room <= g.room
            && (g1.seen ==> HasCall(b.first) ==> g1.room <= 200)
            && (g1.seen ==> See(g.rules, b.first, w + OtSize(b.ot) + 1, g1.open, g1.room) != None)
  {
    hide AllCompile, See, HasCall, Flat, ItemWords, SeeMore, SeeItem, SeeBody;
    SeeUnion(g.rules, b, w, g.open, g.room);
  }

  lemma UnderMore(g: Spot, b: Block, w: int, r: Res, never: bool)
    requires b.Union? && b.ot.None? && AllCompile(g.rules)
    requires FitMore(g.rules, g.sure, b, b.m, w + OtSize(b.ot) + 1 + |Flat(b.first)|)
    requires g.seen ==> SeeItem(g.rules, b, w, g.open, g.room) != None
    requires r.Ok? && Settled(r, g.i, Seen(Under(g), b.first, w + OtSize(b.ot) + 1), never)
    ensures Ahead(g, r.j).rules == g.rules
            && MoreSeen(Ahead(g, r.j), b, b.m, w, w + OtSize(b.ot) + 1 + |Flat(b.first)|)
  {
    hide AllCompile, See, Flat, ItemWords, SeeMore, SeeItem, FitMore, SeeBody;
    SeeUnion(g.rules, b, w, g.open, g.room);
    if g.seen { OneOf(See(g.rules, b.first, w + 1, g.open, g.room - 1)); }
  }

  /** What a union does. */
  lemma UnionIs(g: Spot, b: Block, caps: seq<Capture>)
    requires b.Union? && 0 <= g.i <= |g.s| && b.aux <= OtStep(b.ot)
    ensures var x, r := Env(g), EvalItem(b, Env(g), g.i, caps);
            if !OtPasses(b.ot, x, g.i) then b.ot.Some? && r == EvalB(b.els, x, g.i, caps)
            else
              var i1 := g.i + OtStep(b.ot);
              0 <= i1 - b.aux <= i1 <= |g.s| &&
              match EvalB(b.first, x, i1, caps)
              case Ok(j, c2) => r == EvalMore(b, b.m, x, j, c2)
              case Fail => r == EvalB(b.els, x, i1 - b.aux, caps)
              case Diverge => r == Diverge
  {
    hide Env, EvalB, EvalMore;
  }

  // ---- rules of an accepted grammar ----

  /** All unions in the block are assured. */
  predicate Unions(rules: seq<Rule>, sure: set<int>, b: Block, w: int)
    requires AllCompile(rules)
    decreases b, 2, 0
  {
    b.End? || (UnionsInside(rules, sure, b, w) && Unions(rules, sure, b.k, w + |ItemWords(b)|))
  }

  predicate UnionsInside(rules: seq<Rule>, sure: set<int>, b: Block, w: int)
    requires AllCompile(rules) && !b.End?
    decreases b, 1, 0
  {
    match b
    case TestJmp(t, b1, b2, _, _) =>
      Unions(rules, sure, b1, w + CheckSize(t)) && Unions(rules, sure, b2, w + CheckSize(t) + |Flat(b1)| + 1)
    case Union(ot, aux, first, more, m, els, _, _) =>
      && Assured(rules, b, w, sure) && Unions(rules, sure, first, w + OtSize(ot) + 1)
      && UnionsMore(rules, sure, b, m, w + OtSize(ot) + 1 + |Flat(first)|)
      && Unions(rules, sure, els, w + |ItemWords(b)| - |Flat(els)|)
    case Not(ot, b1, _, _) => Unions(rules, sure, b1, w + OtSize(ot) + 1)
    case And(b1, _, _) => Unions(rules, sure, b1, w + 1)
    case Loop(b1, _, _) => Unions(rules, sure, b1, w + 1)
    case _ => true
  }

  predicate UnionsMore(rules: seq<Rule>, sure: set<int>, b: Block, m: nat, w: int)
    requires AllCompile(rules) && b.Union?
    decreases b, 0, m
  {
    m == 0 || (Unions(rules, sure, b.more, w + 1) && UnionsMore(rules, sure, b, m - 1, w + 1 + |Flat(b.more)|))
  }

  /** What acceptance says of the words of a rule, between from and to. */
  ghost predicate Grammatical(rules: seq<Rule>, c: Code, from: int, to: int)
    requires AllCompile(rules)
  {
    && (forall i :: from <= i < to && At(c, i).IOpenCall? ==> Find(rules, At(c, i).key, 0) < |rules|)
    && (forall j, body: Block :: from <= j < to && LoopHere(c, from, j, body) ==>
         See(rules, body, j + At(c, j).offset, {}, 200) == Some(false))
  }

  /** A block in its place in a rule. */
  ghost predicate PartHere(c: Code, from: int, to: int, p: int, b: Block, d: nat, fed: bool) {
    && from <= p && p + |Flat(b)| <= to && Sub(c, p, Flat(b)) && Shape(b) && Checked(b) && Backed(b, fed) && Valid(b, d)
    && !StartsWithBack(b)
  }

  lemma {:induction false} FitOf(rules: seq<Rule>, sure: set<int>, c: Code, from: int, to: int, p: int, b: Block,
      d: nat,
      fed: bool)
    requires AllCompile(rules) && Grammatical(rules, c, from, to) && PartHere(c, from, to, p, b, d, fed)
             && Unions(rules, sure, b, p)
    ensures Fit(rules, sure, b, p)
    decreases b, 3, 0
  {
    hide *;
    if b.End? {
      FitEnd(rules, sure, b, p);
    } else if LooksAhead(b) {
      LookHere(rules, sure, c, from, to, p, b, d, fed);
      FitOf(rules, sure, c, from, to, p + CheckSize(b.i.ck) + 1, b.k.k, d, false);
      FitLook(rules, sure, b, p);
    } else {
      RestHere(rules, sure, c, from, to, p, b, d, fed);
      FitOf(rules, sure, c, from, to, p + |ItemWords(b)|, b.k, d, b.Prim? && (b.i.ICheck? || (b.i.ICapture? && fed)));
      FitItemOf(rules, sure, c, from, to, p, b, d, fed);
      FitJoin(rules, sure, b, p);
    }
  }

  lemma FitEnd(rules: seq<Rule>, sure: set<int>, b: Block, p: int)
    requires AllCompile(rules) && b.End?
    ensures Fit(rules, sure, b, p)
  {
  }

  lemma FitLook(rules: seq<Rule>, sure: set<int>, b: Block, p: int)
    requires AllCompile(rules) && LooksAhead(b) && !b.k.End? && CheckStep(b.i.ck) >= 1 && b.k.i == IBack(1)
    requires Fit(rules, sure, b.k.k, p + CheckSize(b.i.ck) + 1)
    ensures Fit(rules, sure, b, p)
  {
    hide AllCompile;
  }

  lemma FitJoin(rules: seq<Rule>, sure: set<int>, b: Block, p: int)
    requires AllCompile(rules) && !b.End? && !LooksAhead(b)
    requires FitItem(rules, sure, b, p) && Fit(rules, sure, b.k, p + |ItemWords(b)|)
    ensures Fit(rules, sure, b, p)
  {
    hide AllCompile, ItemWords;
  }

  lemma LookHere(rules: seq<Rule>, sure: set<int>, c: Code, from: int, to: int, p: int, b: Block, d: nat, fed: bool)
    requires AllCompile(rules) && PartHere(c, from, to, p, b, d, fed) && LooksAhead(b) && Unions(rules, sure, b, p)
    ensures b.Prim? && b.i.ICheck? && b.k.Prim? && CheckStep(b.i.ck) >= 1 && b.k.i == IBack(1) && b.k.k < b
    ensures var p1 := p + CheckSize(b.i.ck) + 1;
            PartHere(c, from, to, p1, b.k.k, d, false) && Unions(rules, sure, b.k.k, p1)
  {
    hide AllCompile, Flat, Sub;
    FlatSplit(c, p, b);
    PrimItemWords(b);
    FlatSplit(c, p + |ItemWords(b)|, b.k);
    PrimItemWords(b.k);
    assert Backed(b.k, true) && Checked(b.k.k) && Shape(b.k) && Unions(rules, sure, b.k, p + |ItemWords(b)|);
    assert Valid(b.k, d) && |ItemWords(b.k)| == 1 && |ItemWords(b)| == CheckSize(b.i.ck);
    assert Unions(rules, sure, b.k.k, p + |ItemWords(b)| + |ItemWords(b.k)|);
    CheckedStart(b.k.k);
  }

  lemma NoBackBehind(b: Block)
    requires Backed(b, false)
    ensures !StartsWithBack(b)
  {
  }

  lemma RestHere(rules: seq<Rule>, sure: set<int>, c: Code, from: int, to: int, p: int, b: Block, d: nat, fed: bool)
    requires AllCompile(rules) && PartHere(c, from, to, p, b, d, fed) && !b.End? && !LooksAhead(b)
             && Unions(rules, sure, b, p)
    ensures var p1 := p + |ItemWords(b)|;
            && PartHere(c, from, to, p1, b.k, d, b.Prim? && (b.i.ICheck? || (b.i.ICapture? && fed)))
            && Unions(rules, sure, b.k, p1) && UnionsInside(rules, sure, b, p) && b.k < b
    ensures Sub(c, p, ItemWords(b)) && p + |ItemWords(b)| <= to && from <= p
  {
    hide AllCompile, Flat, Sub, ItemWords, UnionsInside;
    FlatSplit(c, p, b);
    RestChecked(b, fed);
  }

  lemma RestChecked(b: Block, fed: bool)
    requires Checked(b) && Backed(b, fed) && Shape(b) && !b.End? && !LooksAhead(b)
    ensures Checked(b.k) && !StartsWithBack(b.k) && Shape(b.k)
    ensures Backed(b.k, b.Prim? && (b.i.ICheck? || (b.i.ICapture? && fed)))
  {
    CheckedStart(b.k);
    if !b.Prim? { NoBackBehind(b.k); }
  }

  lemma CheckedStart(b: Block)
    requires Checked(b)
    ensures !StartsWithBack(b)
  {
  }

  lemma {:induction false} FitItemOf(rules: seq<Rule>, sure: set<int>, c: Code, from: int, to: int, p: int, b: Block,
      d: nat, fed: bool)
    requires AllCompile(rules) && Grammatical(rules, c, from, to) && PartHere(c, from, to, p, b, d, fed)
    requires !b.End? && !LooksAhead(b) && UnionsInside(rules, sure, b, p)
    ensures FitItem(rules, sure, b, p)
    decreases b, 2, 0
  {
    hide *;
    if b.Prim? {
      PrimFits(rules, sure, c, from, to, p, b, d, fed);
    } else if b.TestJmp? {
      TestHere(rules, sure, c, from, to, p, b, d, fed);
      FitOf(rules, sure, c, from, to, p + CheckSize(b.t), b.b1, 1 + |Flat(b.b2)| + b.x, true);
      FitOf(rules, sure, c, from, to, p + CheckSize(b.t) + |Flat(b.b1)| + 1, b.b2, ItemSlide(b.k, d), false);
      TestFits(rules, sure, b, p);
    } else if b.Union? {
      var q := p + OtSize(b.ot) + 1 + |Flat(b.first)|;
      var pe := p + |ItemWords(b)| - |Flat(b.els)|;
      UnionHere(rules, sure, c, from, to, p, b, d, fed);
      FitOf(rules, sure, c, from, to, p + OtSize(b.ot) + 1, b.first, 0, b.ot.Some?);
      FitOf(rules, sure, c, from, to, pe, b.els, ItemSlide(b.k, d), false);
      FitMoreOf(rules, sure, c, from, to, p, b, d, b.m, q);
      UnionFits(rules, sure, b, p);
    } else if b.Not? || b.And? || b.Loop? {
      var p1 := BodyAt(b, p);
      OverHere(rules, sure, c, from, to, p, b, d, fed);
      FitOf(rules, sure, c, from, to, p1, b.b, 0, b.Not? && b.ot.Some?);
      if b.Loop? { LoopFits(rules, c, from, to, p, b, d, fed); }
      OverFits(rules, sure, b, p);
    } else {
      HeadFits(rules, sure, b, p) by { HeadShape(c, from, to, p, b, d, fed); }
    }
  }

  lemma HeadShape(c: Code, from: int, to: int, p: int, b: Block, d: nat, fed: bool)
    requires PartHere(c, from, to, p, b, d, fed)
    ensures Shape(b)
  {
  }

  lemma PrimFits(rules: seq<Rule>, sure: set<int>, c: Code, from: int, to: int, p: int, b: Block, d: nat, fed: bool)
    requires AllCompile(rules) && Grammatical(rules, c, from, to) && PartHere(c, from, to, p, b, d, fed)
    requires b.Prim? && !LooksAhead(b)
    ensures FitItem(rules, sure, b, p)
  {
    hide AllCompile, Flat, LoopHere;
    FlatSplit(c, p, b);
    PrimItemWords(b);
    SubAt(c, p, ItemWords(b), 0);
  }

  lemma HeadFits(rules: seq<Rule>, sure: set<int>, b: Block, p: int)
    requires AllCompile(rules) && (b.NotHead? || b.LoopHead? || b.OptHead?) && Shape(b)
    ensures FitItem(rules, sure, b, p)
  {
    hide AllCompile;
  }

  lemma TestHere(rules: seq<Rule>, sure: set<int>, c: Code, from: int, to: int, p: int, b: Block, d: nat, fed: bool)
    requires AllCompile(rules) && PartHere(c, from, to, p, b, d, fed) && b.TestJmp? && UnionsInside(rules, sure, b, p)
    ensures var p1 := p + CheckSize(b.t); var p2 := p1 + |Flat(b.b1)| + 1;
            && PartHere(c, from, to, p1, b.b1, 1 + |Flat(b.b2)| + b.x, true) && Unions(rules, sure, b.b1, p1)
            && PartHere(c, from, to, p2, b.b2, ItemSlide(b.k, d), false) && Unions(rules, sure, b.b2, p2)
            && CheckStep(b.t) >= 1 && !StartsWithBack(b.b1) && b.b1 < b && b.b2 < b
  {
    hide AllCompile, Flat, ItemWords, Unions;
    FlatSplit(c, p, b);
    Layout(c, p, b);
    CheckedStart(b.b1);
    CheckedStart(b.b2);
  }

  lemma TestFits(rules: seq<Rule>, sure: set<int>, b: Block, p: int)
    requires AllCompile(rules) && b.TestJmp? && CheckStep(b.t) >= 1 && !StartsWithBack(b.b1)
    requires Fit(rules, sure, b.b1, p + CheckSize(b.t)) && Fit(rules, sure, b.b2, p + CheckSize(b.t) + |Flat(b.b1)| + 1)
    ensures FitItem(rules, sure, b, p)
  {
    hide AllCompile, Fit, Flat;
  }

  /** Where the body of a predicate or a loop starts. */
  function BodyAt(b: Block, p: int): int
    requires b.Not? || b.And? || b.Loop?
  {
    if b.Not? then p + OtSize(b.ot) + 1 else p + 1
  }

  lemma OverHere(rules: seq<Rule>, sure: set<int>, c: Code, from: int, to: int, p: int, b: Block, d: nat, fed: bool)
    requires AllCompile(rules) && PartHere(c, from, to, p, b, d, fed) && (b.Not? || b.And? || b.Loop?)
             && UnionsInside(rules, sure, b, p)
    ensures PartHere(c, from, to, BodyAt(b, p), b.b, 0, b.Not? && b.ot.Some?) && Unions(rules, sure, b.b, BodyAt(b, p))
    ensures b.b < b && (b.Not? && b.ot.Some? ==> OtStep(b.ot) >= 1)
  {
    hide AllCompile, Flat, ItemWords, Unions;
    FlatSplit(c, p, b);
    Layout(c, p, b);
    CheckedStart(b.b);
  }

  lemma OverFits(rules: seq<Rule>, sure: set<int>, b: Block, p: int)
    requires AllCompile(rules) && (b.Not? || b.And? || b.Loop?) && Fit(rules, sure, b.b, BodyAt(b, p))
    requires b.Not? && b.ot.Some? ==> OtStep(b.ot) >= 1
    requires b.Loop? ==> if HasCall(b.b) then See(rules, b.b, p + 1, {}, 200) == Some(false) else !Nullable(b.b)
    ensures FitItem(rules, sure, b, p)
  {
    hide AllCompile, Fit, See, Nullable, HasCall;
  }

  /** The verifier has found the body of a loop with a reference to consume; the builder that of any other loop. */
  lemma LoopFits(rules: seq<Rule>, c: Code, from: int, to: int, p: int, b: Block, d: nat, fed: bool)
    requires AllCompile(rules) && Grammatical(rules, c, from, to) && PartHere(c, from, to, p, b, d, fed) && b.Loop?
    ensures if HasCall(b.b) then See(rules, b.b, p + 1, {}, 200) == Some(false) else !Nullable(b.b)
  {
    hide AllCompile, See, Flat, ItemWords, Shape, Valid, Nullable, HasCall;
    if HasCall(b.b) {
      var z := p + |ItemWords(b)|;
      LoopStands(c, from, to, p, b, d, fed);
      CallStands(c, p + 1, b.b);
      var q :| p + 1 <= q < p + 1 + |Flat(b.b)| && At(c, q).IOpenCall?;
      assert LoopRefers(c, from, z - 1);
      assert LoopHere(c, from, z - 1, b.b);
    } else {
      NotEmptyBody(b, fed) by { assert Backed(b, fed); }
    }
  }

  lemma NotEmptyBody(b: Block, fed: bool)
    requires b.Loop? && Backed(b, fed)
    ensures !Nullable(b.b)
  {
  }

  lemma LoopStands(c: Code, from: int, to: int, p: int, b: Block, d: nat, fed: bool)
    requires PartHere(c, from, to, p, b, d, fed) && b.Loop?
    ensures var z := p + |ItemWords(b)|;
            && from <= p < z <= to && z - 1 == p + 1 + |Flat(b.b)| && 0 <= z - 1 < |c| && Closes(c, z - 1)
            && z - 1 + At(c, z - 1).offset == p + 1 && LpegTyping.LoopOver(c, z - 1, b.b)
            && Sub(c, p + 1, Flat(b.b)) && Shape(b.b)
  {
    hide Flat, ItemWords, Checked;
    FlatSplit(c, p, b);
    Layout(c, p, b);
    BodyNotEmpty(b.b, fed) by { NotEmptyBody(b, fed); }
  }

  lemma BodyNotEmpty(b: Block, fed: bool)
    requires !Nullable(b)
    ensures |Flat(b)| > 0
  {
    if b.Prim? { PrimItemWords(b); }
  }

  /** A reference in a block stands among its words. */
  lemma {:induction false} CallStands(c: Code, p: int, b: Block)
    requires Sub(c, p, Flat(b)) && Shape(b) && HasCall(b)
    ensures exists q :: p <= q < p + |Flat(b)| && At(c, q).IOpenCall?
    decreases b, 2, 0
  {
    hide Flat, ItemWords;
    FlatSplit(c, p, b);
    if HasCall(b.k) && Shape(b.k) {
      CallStands(c, p + |ItemWords(b)|, b.k);
    } else {
      ItemCalls(c, p, b);
    }
  }

  lemma {:induction false} ItemCalls(c: Code, p: int, b: Block)
    requires !b.End? && Sub(c, p, ItemWords(b)) && Shape(b) && HasCall(b) && !HasCall(b.k)
    ensures exists q :: p <= q < p + |ItemWords(b)| && At(c, q).IOpenCall?
    decreases b, 1, 0
  {
    hide Flat, ItemWords, MorePlaced;
    if b.Prim? {
      PrimItemWords(b);
      SubAt(c, p, ItemWords(b), 0);
    } else {
      Layout(c, p, b);
      if b.TestJmp? {
        if HasCall(b.b1) { CallStands(c, p + CheckSize(b.t), b.b1); }
        else { CallStands(c, p + CheckSize(b.t) + |Flat(b.b1)| + 1, b.b2); }
      } else if b.Union? {
        UnionCalls(c, p, b);
      } else {
        CallStands(c, BodyAt(b, p), b.b);
      }
    }
  }

  lemma {:induction false} UnionCalls(c: Code, p: int, b: Block)
    requires b.Union? && Sub(c, p, ItemWords(b)) && Shape(b)
    requires HasCall(b.first) || (b.m > 0 && HasCall(b.more)) || HasCall(b.els)
    ensures exists q :: p <= q < p + |ItemWords(b)| && At(c, q).IOpenCall?
    decreases b, 0, 1
  {
    hide Flat, ItemWords, MorePlaced;
    var z, q := p + |ItemWords(b)|, p + OtSize(b.ot) + 1 + |Flat(b.first)|;
    Layout(c, p, b);
    UnionPlaces(c, p, z, b);
    if HasCall(b.first) {
      CallStands(c, p + OtSize(b.ot) + 1, b.first);
    } else if HasCall(b.els) {
      CallStands(c, z - |Flat(b.els)|, b.els);
    } else {
      MoreLayout(c, z, Flat(b.more), b.m, Flat(b.els), b.x, q);
      MorePlace(c, z, b, b.m - 1, q + 1 + |Flat(b.more)|);
      CallStands(c, q + 1, b.more);
    }
  }

  /** Where the alternatives of a union stand. */
  lemma UnionPlaces(c: Code, p: int, z: int, b: Block)
    requires b.Union? && ItemAt(c, p, z, b)
    ensures var q := p + OtSize(b.ot) + 1 + |Flat(b.first)|; var pe := z - |Flat(b.els)|;
            && Sub(c, p + OtSize(b.ot) + 1, Flat(b.first)) && Sub(c, pe, Flat(b.els)) && p <= q < pe
            && MorePlaced(c, z, Flat(b.more), b.m, Flat(b.els), b.x, q)
  {
    hide Flat;
  }

  lemma MorePlace(c: Code, z: int, b: Block, m: nat, q: int)
    requires b.Union? && MorePlaced(c, z, Flat(b.more), m, Flat(b.els), b.x, q)
    ensures q < z - |Flat(b.els)|
  {
    hide Flat;
  }

  lemma UnionHere(rules: seq<Rule>, sure: set<int>, c: Code, from: int, to: int, p: int, b: Block, d: nat, fed: bool)
    requires AllCompile(rules) && PartHere(c, from, to, p, b, d, fed) && b.Union? && UnionsInside(rules, sure, b, p)
    ensures var z, p1 := p + |ItemWords(b)|, p + OtSize(b.ot) + 1; var q, pe := p1 + |Flat(b.first)|, z - |Flat(b.els)|;
            && PartHere(c, from, to, p1, b.first, 0, b.ot.Some?) && Unions(rules, sure, b.first, p1)
            && PartHere(c, from, to, pe, b.els, ItemSlide(b.k, d), false) && Unions(rules, sure, b.els, pe)
            && MorePlaced(c, z, Flat(b.more), b.m, Flat(b.els), b.x, q) && UnionsMore(rules, sure, b, b.m, q)
            && from <= q && z <= to
    ensures b.first < b && b.more < b && b.els < b
    ensures b.aux <= OtStep(b.ot) && (b.ot.Some? ==> OtStep(b.ot) >= 1) && Assured(rules, b, p, sure)
    ensures b.m > 0 ==> Shape(b.more) && Checked(b.more) && Backed(b.more, false)
    ensures b.m > 0 ==> Valid(b.more, 0) && !StartsWithBack(b.more)
  {
    hide AllCompile, Flat, ItemWords, Unions, UnionsMore, Assured, MorePlaced;
    FlatSplit(c, p, b);
    Layout(c, p, b);
    UnionPlaces(c, p, p + |ItemWords(b)|, b);
    CheckedStart(b.first);
    CheckedStart(b.els);
    if b.m > 0 { CheckedStart(b.more); }
  }

  lemma UnionFits(rules: seq<Rule>, sure: set<int>, b: Block, p: int)
    requires AllCompile(rules) && b.Union?
    requires b.aux <= OtStep(b.ot) && (b.ot.Some? ==> OtStep(b.ot) >= 1) && Assured(rules, b, p, sure)
    requires Fit(rules, sure, b.first, p + OtSize(b.ot) + 1)
             && FitMore(rules, sure, b, b.m, p + OtSize(b.ot) + 1 + |Flat(b.first)|)
             && Fit(rules, sure, b.els, p + |ItemWords(b)| - |Flat(b.els)|)
    ensures FitItem(rules, sure, b, p)
  {
    hide AllCompile, Fit, Flat, ItemWords, Assured, FitMore;
  }

  lemma {:induction false} FitMoreOf(rules: seq<Rule>, sure: set<int>, c: Code, from: int, to: int, p: int, b: Block,
      d: nat, m: nat, q: int)
    requires AllCompile(rules) && Grammatical(rules, c, from, to) && b.Union? && from <= q && p + |ItemWords(b)| <= to
    requires MorePlaced(c, p + |ItemWords(b)|, Flat(b.more), m, Flat(b.els), b.x, q) && UnionsMore(rules, sure, b, m, q)
    requires m > 0 ==> Shape(b.more) && Checked(b.more) && Backed(b.more, false)
    requires m > 0 ==> Valid(b.more, 0) && !StartsWithBack(b.more)
    ensures FitMore(rules, sure, b, m, q)
    decreases b, 1, m
  {
    hide *;
    if m > 0 {
      var q2 := q + 1 + |Flat(b.more)|;
      MoreStands(rules, sure, c, from, to, p, b, m, q);
      FitOf(rules, sure, c, from, to, q + 1, b.more, 0, false);
      FitMoreOf(rules, sure, c, from, to, p, b, d, m - 1, q2);
    }
    FitMoreIs(rules, sure, b, m, q);
  }

  lemma MoreStands(rules: seq<Rule>, sure: set<int>, c: Code, from: int, to: int, p: int, b: Block, m: nat, q: int)
    requires AllCompile(rules) && b.Union? && from <= q && p + |ItemWords(b)| <= to && m > 0
    requires MorePlaced(c, p + |ItemWords(b)|, Flat(b.more), m, Flat(b.els), b.x, q) && UnionsMore(rules, sure, b, m, q)
    requires Shape(b.more) && Checked(b.more) && Backed(b.more, false) && Valid(b.more, 0) && !StartsWithBack(b.more)
    ensures var q2 := q + 1 + |Flat(b.more)|;
            && PartHere(c, from, to, q + 1, b.more, 0, false) && Unions(rules, sure, b.more, q + 1) && b.more < b
            && MorePlaced(c, p + |ItemWords(b)|, Flat(b.more), m - 1, Flat(b.els), b.x, q2)
            && UnionsMore(rules, sure, b, m - 1, q2) && from <= q2
  {
    hide AllCompile, Flat, ItemWords, Unions, MorePlaced, Shape, Checked, Backed, Valid;
    MoreLayout(c, p + |ItemWords(b)|, Flat(b.more), m, Flat(b.els), b.x, q);
    MorePlace(c, p + |ItemWords(b)|, b, m - 1, q + 1 + |Flat(b.more)|);
  }

  lemma FitMoreIs(rules: seq<Rule>, sure: set<int>, b: Block, m: nat, q: int)
    requires AllCompile(rules) && b.Union?
    requires m > 0 ==> Fit(rules, sure, b.more, q + 1) && FitMore(rules, sure, b, m - 1, q + 1 + |Flat(b.more)|)
    ensures FitMore(rules, sure, b, m, q)
  {
    hide AllCompile, Fit, Flat;
  }

  /** The check on the rules: their unions are assured, and the rules with the keys `sure` never fail. */
  ghost predicate Steady(rules: seq<Rule>, sure: set<int>)
    requires AllCompile(rules)
  {
    forall k :: 0 <= k < |rules| ==> RuleSteady(rules, sure, k)
  }

  predicate RuleSteady(rules: seq<Rule>, sure: set<int>, k: nat)
    requires AllCompile(rules) && k < |rules|
  {
    var b := BlockOf(rules[k].patt);
    Unions(rules, sure, b, Start(rules, k)) && (rules[k].key in sure ==> NeverFails(b, sure))
  }

  lemma RuleHolds(rules: seq<Rule>, first: nat, k: nat)
    requires AllCompile(rules) && first < |rules| && k < |rules| && NoStrayBack(GrammarCode(rules, first))
    ensures PartHere(GrammarCode(rules, first), Start(rules, k), Start(rules, k + 1), Start(rules, k),
                     BlockOf(rules[k].patt), 0, false)
  {
    hide AllCompile, GrammarCode, Start, BlockOf, Flat, NoStrayBack, Shape, Valid, Backed, Balanced, Spine, Sub,
      RuleCode;
    var c, b := GrammarCode(rules, first), BlockOf(rules[k].patt);
    RulePlaced(rules, first, k);
    RuleSizes(rules, first, k);
    GoodOf(b);
    NoBackBehind(b);
    CheckedOf(c, Start(rules, k), b, false);
  }

  lemma AcceptedGrammatical(rules: seq<Rule>, first: nat, k: nat)
    requires Accepted(rules, first) && k < |rules|
    ensures AllCompile(rules) && first < |rules|
    ensures Grammatical(rules, GrammarCode(rules, first), Start(rules, k), Start(rules, k + 1))
    ensures See(rules, BlockOf(rules[k].patt), Start(rules, k), {}, 200) != None
  {
    hide AllCompile, Accepted, GrammarCode, Start, BlockOf, See, LoopHere, RuleCode;
    AcceptsExactly(rules, first);
    var c := GrammarCode(rules, first);
    assert RuleSeen(rules, first, k);
    RulePlaced(rules, first, k);
    forall i | Start(rules, k) <= i < Start(rules, k + 1) && At(c, i).IOpenCall?
      ensures Find(rules, At(c, i).key, 0) < |rules|
    {
      NamedExactly(rules, At(c, i).key, 0);
    }
  }

  lemma AcceptedGrounded(rules: seq<Rule>, first: nat, sure: set<int>)
    requires Faithful(rules) && Accepted(rules, first) && AllCompile(rules) && first < |rules|
             && NoStrayBack(GrammarCode(rules, first)) && Steady(rules, sure)
    ensures Grounded(rules, sure)
  {
    hide AllCompile, Accepted, GrammarCode, Start, BlockOf, See, Unions, Fit, NeverFails, Grammatical, PartHere,
      NoStrayBack,
      Faithful;
    forall k | 0 <= k < |rules| ensures RuleFit(rules, sure, k) {
      AcceptedGrammatical(rules, first, k);
      RuleHolds(rules, first, k);
      assert RuleSteady(rules, sure, k);
      FitOf(rules, sure, GrammarCode(rules, first), Start(rules, k), Start(rules, k + 1), Start(rules, k),
        BlockOf(rules[k].patt), 0, false);
    }
  }

  /** Every rule has a result at every position, when calls nest 201 deep at each position that is left. */
  lemma RuleTotal(rules: seq<Rule>, sure: set<int>, k: nat, s: seq<Byte>, i: nat)
    requires Grounded(rules, sure) && k < |rules| && i <= |s|
    ensures !Eval(rules[k].patt, Within(rules, s, 201 * (|s| - i + 1)), i).Diverge?
  {
    hide *;
    var g := Spot(rules, sure, s, 201 * (|s| - i + 1), i, true, {}, 200);
    GroundedRule(rules, sure, k);
    RuleTried(g, k);
    TotalBlock(g, BlockOf(rules[k].patt), Start(rules, k), []);
    RuleAgrees(rules, k, Env(g), i, []);
    TotalAgrees(g, k, i);
  }

  lemma GroundedRule(rules: seq<Rule>, sure: set<int>, k: nat)
    requires Grounded(rules, sure) && k < |rules|
    ensures AllCompile(rules) && Faithful(rules) && RuleFit(rules, sure, k)
  {
    hide AllCompile, RuleFit;
  }

  lemma RuleTried(g: Spot, k: nat)
    requires Grounded(g.rules, g.sure) && k < |g.rules| && AllCompile(g.rules) && RuleFit(g.rules, g.sure, k)
    requires 0 <= g.i <= |g.s| && g.n == 201 * (|g.s| - g.i + 1) && g.seen && g.open == {} && g.room == 200
    ensures Tried(g, BlockOf(g.rules[k].patt), Start(g.rules, k))
  {
    hide AllCompile, Grounded, Fit, See, HasCall, BlockOf, Start;
  }

  lemma TotalAgrees(g: Spot, k: nat, i: int)
    requires AllCompile(g.rules) && k < |g.rules| && i == g.i && 0 <= i <= |g.s|
    requires Settled(EvalB(BlockOf(g.rules[k].patt), Env(g), i, []), i,
             Seen(g, BlockOf(g.rules[k].patt), Start(g.rules, k)),
                     NeverFails(BlockOf(g.rules[k].patt), g.sure))
    requires Agrees(EvalB(BlockOf(g.rules[k].patt), Env(g), i, []), Eval(g.rules[k].patt, Env(g), i), [])
    ensures !Eval(g.rules[k].patt, Within(g.rules, g.s, g.n), i).Diverge?
  {
    hide AllCompile, BlockOf, Start, EvalB, Eval, Within, Seen;
  }

  /**
    What the check of fix_l promises: no accepted grammar runs for ever.  It holds when every IBack stands
    directly behind its own check, and no alternative is passed over by the check and yet tried: `Steady` can
    be run.  The grammar then has one result at every position of every subject, and its run halts with it.
   */
  lemma AcceptedHalts(rules: seq<Rule>, first: nat, sure: set<int>, s: seq<Byte>, i: nat)
    requires Faithful(rules) && Accepted(rules, first) && AllCompile(rules) && first < |rules|
             && NoStrayBack(GrammarCode(rules, first)) && Steady(rules, sure) && i <= |s|
    ensures var r := Eval(rules[first].patt, Within(rules, s, 201 * (|s| - i + 1)), i);
            !r.Diverge? && Gives(rules, first, s, i, r) && Reaches(Fixed(rules, first), s, Init(i), Final(r))
  {
    hide AllCompile, Accepted, GrammarCode, Steady, Eval, Within, Reaches, Fixed, NoStrayBack, Grounded, Sane, Lossless;
    AcceptedGrounded(rules, first, sure);
    RuleTotal(rules, sure, first, s, i);
    var r := Eval(rules[first].patt, Within(rules, s, 201 * (|s| - i + 1)), i);
    FinalHalted(r);
    FixedCorrect(rules, first, s, i, Final(r));
  }

  // ---- a rule that calls itself behind a byte ----

  /** A <- 'a' A */
  const RIGHT: seq<Rule> := [Rule(1, Seq(Str([97]), NonTerm(1)))]

  lemma RightBody()
    ensures Compile(RIGHT[0].patt) == Pattern([ICheck(Char(97), 0), IOpenCall(1)])
    ensures Sane(RIGHT[0].patt) && Lossless(RIGHT[0].patt)
  {
    var c1: Code, c2: Code := [ICheck(Char(97), 0)], [IOpenCall(1)];
    assert [97 as Byte][1..] == [];
    assert StrCode([97]) == c1;
    assert Compile(Str([97])) == Pattern(c1) && Compile(NonTerm(1)) == Pattern(c2);
    assert c1 + c2 == [ICheck(Char(97), 0), IOpenCall(1)];
    assert OptCapsFrom(c1 + c2, 2, 0) == c1 + c2;
    assert OptCapsFrom(c1 + c2, 1, 0) == c1 + c2;
    assert OptCaps(c1 + c2) == c1 + c2;
    assert Sane(Str([97])) && Sane(NonTerm(1)) && Lossless(Str([97])) && Lossless(NonTerm(1));
  }

  lemma RightCode()
    ensures AllCompile(RIGHT) && Faithful(RIGHT) && Start(RIGHT, 0) == 2 && Start(RIGHT, 1) == 5
    ensures GrammarCode(RIGHT, 0) == [ICall(2), IJmp(4), ICheck(Char(97), 0), IOpenCall(1), IRet]
  {
    hide Compile, Sane, Lossless;
    RightBody();
    var c := [ICheck(Char(97), 0), IOpenCall(1)];
    assert RuleCode(RIGHT, 0) == c;
    assert Bodies(RIGHT, 0) == [];
    assert Bodies(RIGHT, 1) == [] + c + [IRet];
    assert Start(RIGHT, 1) == 5;
  }

  lemma RightBlock()
    ensures AllCompile(RIGHT)
    ensures var b := BlockOf(RIGHT[0].patt);
            && b.Prim? && b.i == ICheck(Char(97), 0) && b.k.Prim? && b.k.i == IOpenCall(1) && b.k.k.End?
  {
    hide Compile, BlockOf, AllCompile;
    RightBody();
    RightCode();
    Laid(RIGHT[0].patt);
    var b := BlockOf(RIGHT[0].patt);
    GoodShape(b);
    FlatEmpty(b);
    CheckFirst(b);
    PrimItemWords(b);
    assert Flat(b) == ItemWords(b) + Flat(b.k) == [ICheck(Char(97), 0), IOpenCall(1)];
    assert |ItemWords(b)| == 1 && Flat(b)[1..] == Flat(b.k);
    assert Flat(b.k) == [IOpenCall(1)];
    FlatEmpty(b.k);
    ItemHead(b.k);
    PrimItemWords(b.k);
    assert Flat(b.k) == ItemWords(b.k) + Flat(b.k.k) && |ItemWords(b.k)| == 1;
    assert Flat(b.k.k) == [];
    FlatEmpty(b.k.k);
  }

  /** The rule is accepted, and its run halts at every position of every subject. */
  lemma RightHalts(s: seq<Byte>, i: nat)
    requires i <= |s|
    ensures AllCompile(RIGHT) && Accepted(RIGHT, 0)
    ensures exists r: Res :: Reaches(Fixed(RIGHT, 0), s, Init(i), Final(r))
  {
    hide AllCompile, Accepted, GrammarCode, Start, BlockOf, Faithful, Fixed, Reaches, Eval, Within, Gives;
    RightCode();
    RightBlock();
    RightSeen();
    AcceptsExactly(RIGHT, 0);
    RightSteady();
    AcceptedHalts(RIGHT, 0, {}, s, i);
  }

  lemma RightSeen()
    requires AllCompile(RIGHT) && Start(RIGHT, 0) == 2 && Start(RIGHT, 1) == 5
    requires GrammarCode(RIGHT, 0) == [ICall(2), IJmp(4), ICheck(Char(97), 0), IOpenCall(1), IRet]
    requires var b := BlockOf(RIGHT[0].patt);
             b.Prim? && b.i == ICheck(Char(97), 0) && b.k.Prim? && b.k.i == IOpenCall(1) && b.k.k.End?
    ensures RuleSeen(RIGHT, 0, 0) && AllNamed(RIGHT, 0) && LpegGrammar.Total(RIGHT) < 32756
            && NoStrayBack(GrammarCode(RIGHT, 0))
  {
    hide AllCompile, GrammarCode, Start, BlockOf;
    SeeIs(RIGHT, BlockOf(RIGHT[0].patt), 2, {}, 200);
    assert RIGHT[0].key == 1;
  }

  lemma RightSteady()
    requires AllCompile(RIGHT)
    requires var b := BlockOf(RIGHT[0].patt);
             b.Prim? && b.i == ICheck(Char(97), 0) && b.k.Prim? && b.k.i == IOpenCall(1) && b.k.k.End?
    ensures Steady(RIGHT, {})
  {
    hide AllCompile, Start, BlockOf, ItemWords;
    var b, w := BlockOf(RIGHT[0].patt), Start(RIGHT, 0);
    assert Unions(RIGHT, {}, b.k.k, w + |ItemWords(b)| + |ItemWords(b.k)|);
    assert Unions(RIGHT, {}, b.k, w + |ItemWords(b)|);
    assert RuleSteady(RIGHT, {}, 0);
  }
}
