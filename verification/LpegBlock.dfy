/**
  The structure behind the code that the builders emit: a block is a list of items, each a
  straight instruction or one of the jumping shapes that an operator lays out in a row.
 */
module LpegBlock {
  import opened LpegCode
  import opened LpegMachine
  import opened LpegPeg

  /**
    `k` is what follows the item.  `x` is how far past its own end an item jumps when it
    is done: 0 as built, and the length of the chain of unconditional jumps found there once
    optimizejumps has run.  `ot` is the check that optimizechoice pulled in front of a choice.
   */
  datatype Block =
    | End
    | Prim(i: Cell, k: Block)
      // test L1; b1; jump L2; L1: b2; L2:
    | TestJmp(t: Check, b1: Block, b2: Block, x: nat, k: Block)
      // [test L1;] choice L1; first; (partialcommit; more)^m; commit L2; L1: els; L2:
    | Union(ot: Option<Check>, aux: nat, first: Block, more: Block, m: nat, els: Block, x: nat, k: Block)
      // [test L1;] choice L1; b; failtwice; L1:
    | Not(ot: Option<Check>, b: Block, x: nat, k: Block)
      // test L1; b; fail; L1:
    | NotHead(t: Check, b: Block, x: nat, k: Block)
      // choice L1; b; backcommit L2; L1: fail; L2:
    | And(b: Block, x: nat, k: Block)
      // choice L1; L2: b; partialcommit L2; L1:
    | Loop(b: Block, x: nat, k: Block)
      // L2: test L1; b; jump L2; L1:
    | LoopHead(t: Check, b: Block, x: nat, k: Block)
      // (test L1; b)^n; L1:
    | OptHead(t: Check, b: Block, n: nat, x: nat, k: Block)

  // ---- words ----

  function OtWords(ot: Option<Check>, offset: int): Code {
    if ot.Some? then Words(ICheck(ot.value, offset)) else []
  }

  function OtSize(ot: Option<Check>): nat {
    if ot.Some? then CheckSize(ot.value) else 0
  }

  function OtStep(ot: Option<Check>): nat {
    if ot.Some? then CheckStep(ot.value) else 0
  }

  function MoreWords(f: Code, m: nat): Code {
    if m == 0 then [] else [IPartialCommit(1)] + f + MoreWords(f, m - 1)
  }

  /** n copies of a test and its block f, all jumping to x words past the last one. */
  function OptWords(t: Check, f: Code, n: nat, x: nat): Code {
    if n == 0 then []
    else
      var rest := OptWords(t, f, n - 1, x);
      Words(ICheck(t, CheckSize(t) + |f| + |rest| + x)) + f + rest
  }

  /** An alternative that starts at the end of its item is reached through the item's exit. */
  function Exit(b: Block, x: nat): nat {
    if b.End? then x else 0
  }

  /** A choice, perhaps behind a test, whose alternative lies `offset` words after the choice. */
  function OtChoice(ot: Option<Check>, aux: nat, offset: int): Code {
    OtWords(ot, OtSize(ot) + offset) + [IChoice(offset, aux)]
  }

  function UnionWords(ot: Option<Check>, aux: nat, body: Code, fe: Code, ex: nat, x: nat): Code {
    OtChoice(ot, aux, 1 + |body| + 1 + ex) + body + [ICommit(1 + |fe| + x)] + fe
  }

  function TestJmpWords(t: Check, f1: Code, f2: Code, ex: nat, x: nat): Code {
    Words(ICheck(t, CheckSize(t) + |f1| + 1 + ex)) + f1 + [IJmp(1 + |f2| + x)] + f2
  }

  function NotWords(ot: Option<Check>, f: Code, x: nat): Code {
    OtChoice(ot, OtStep(ot), 1 + |f| + 1 + x) + f + [IFailTwice]
  }

  function NotHeadWords(t: Check, f: Code, x: nat): Code {
    Words(ICheck(t, CheckSize(t) + |f| + 1 + x)) + f + [IFail]
  }

  function AndWords(f: Code, x: nat): Code {
    [IChoice(1 + |f| + 1, 0)] + f + [IBackCommit(2 + x), IFail]
  }

  function LoopWords(f: Code, x: nat): Code {
    [IChoice(1 + |f| + 1 + x, 0)] + f + [IPartialCommit(-|f|)]
  }

  function LoopHeadWords(t: Check, f: Code, x: nat): Code {
    Words(ICheck(t, CheckSize(t) + |f| + 1 + x)) + f + [IJmp(-(CheckSize(t) + |f|))]
  }

  /** The words of the first item of b. */
  function ItemWords(b: Block): Code
    requires !b.End?
    decreases b, 0
  {
    match b
    case Prim(i, _) => Words(i)
    case TestJmp(t, b1, b2, x, _) => TestJmpWords(t, Flat(b1), Flat(b2), Exit(b2, x), x)
    case Union(ot, aux, first, more, m, els, x, _) =>
      UnionWords(ot, aux, Flat(first) + MoreWords(Flat(more), m), Flat(els), Exit(els, x), x)
    case Not(ot, b1, x, _) => NotWords(ot, Flat(b1), x)
    case NotHead(t, b1, x, _) => NotHeadWords(t, Flat(b1), x)
    case And(b1, x, _) => AndWords(Flat(b1), x)
    case Loop(b1, x, _) => LoopWords(Flat(b1), x)
    case LoopHead(t, b1, x, _) => LoopHeadWords(t, Flat(b1), x)
    case OptHead(t, b1, n, x, _) => OptWords(t, Flat(b1), n, x)
  }

  function Flat(b: Block): Code
    decreases b, 1
  {
    if b.End? then [] else ItemWords(b) + Flat(b.k)
  }

  // ---- meaning ----

  function OtPasses(ot: Option<Check>, x: Subject, i: int): bool {
    ot.Some? ==> Passes(ot.value, x.s, i)
  }

  /** The effect of a straight instruction. */
  function EvalPrim(c: Cell, x: Subject, i: int, caps: seq<Capture>): (r: Res)
    requires 0 <= i <= |x.s|
    ensures r.Ok? ==> 0 <= r.j <= |x.s|
  {
    match c
    case ICheck(ck, _) => if Passes(ck, x.s, i) then Ok(i + CheckStep(ck), caps) else Fail
    case ISpan(cs) => Ok(SpanEnd(cs, x.s, i), caps)
    case IBack(n) => if n > i then Fail else Ok(i - n, caps)
    case ICapture(op, idx, kind, off) => Ok(i, DoCapture(op, idx, kind, off, i, caps))
    case IOpenCall(key) =>
      (match Referred(x, key, i)
       case Ok(j, cs) => Ok(j, caps + cs)
       case r => r)
    case _ => Fail
  }

  /** The effect of the first item of b from position i with captures caps. */
  function EvalItem(b: Block, x: Subject, i: int, caps: seq<Capture>): (r: Res)
    requires !b.End? && 0 <= i <= |x.s|
    ensures r.Ok? ==> 0 <= r.j <= |x.s|
    decreases b, 1, 0
  {
    match b
    case Prim(c, _) => EvalPrim(c, x, i, caps)
    case TestJmp(t, b1, b2, _, _) =>
      if Passes(t, x.s, i) then EvalB(b1, x, i + CheckStep(t), caps) else EvalB(b2, x, i, caps)
    case Union(ot, aux, first, _, m, els, _, _) =>
      if !OtPasses(ot, x, i) then EvalB(els, x, i, caps)
      else
        var back := if aux <= OtStep(ot) then i + OtStep(ot) - aux else i;
        (match EvalB(first, x, i + OtStep(ot), caps)
         case Ok(j, c2) => EvalMore(b, m, x, j, c2)
         case Fail => EvalB(els, x, back, caps)
         case Diverge => Diverge)
    case Not(ot, b1, _, _) =>
      if !OtPasses(ot, x, i) then Ok(i, caps)
      else
        (match EvalB(b1, x, i + OtStep(ot), caps)
         case Ok(_, _) => Fail
         case Fail => Ok(i, caps)
         case Diverge => Diverge)
    case NotHead(t, b1, _, _) =>
      if !Passes(t, x.s, i) then Ok(i, caps)
      else
        (match EvalB(b1, x, i + CheckStep(t), caps)
         case Diverge => Diverge
         case _ => Fail)
    case And(b1, _, _) =>
      (match EvalB(b1, x, i, caps)
       case Ok(_, _) => Ok(i, caps)
       case r => r)
    case Loop(_, _, _) => EvalRounds(b, x, i, caps)
    case LoopHead(_, _, _, _) => EvalRounds(b, x, i, caps)
    case OptHead(_, _, n, _, _) => EvalOpts(b, n, x, i, caps)
  }

  function EvalB(b: Block, x: Subject, i: int, caps: seq<Capture>): (r: Res)
    requires 0 <= i <= |x.s|
    ensures r.Ok? ==> 0 <= r.j <= |x.s|
    decreases b, 2, 0
  {
    if b.End? then Ok(i, caps)
    else
      match EvalItem(b, x, i, caps)
      case Ok(j, c2) => EvalB(b.k, x, j, c2)
      case r => r
  }

  /** The copies of a union's first alternative that are still allowed. */
  function EvalMore(b: Block, m: nat, x: Subject, i: int, caps: seq<Capture>): (r: Res)
    requires b.Union? && 0 <= i <= |x.s|
    ensures r.Ok? ==> 0 <= r.j <= |x.s|
    decreases b, 0, m
  {
    if m == 0 then Ok(i, caps)
    else
      match EvalB(b.more, x, i, caps)
      case Ok(j, c2) => EvalMore(b, m - 1, x, j, c2)
      case Fail => EvalB(b.els, x, i, caps)
      case Diverge => Diverge
  }

  /** The rounds of a loop from position i on. */
  function EvalRounds(b: Block, x: Subject, i: int, caps: seq<Capture>): (r: Res)
    requires (b.Loop? || b.LoopHead?) && 0 <= i <= |x.s|
    ensures r.Ok? ==> 0 <= r.j <= |x.s|
    decreases b, 0, |x.s| - i
  {
    if b.LoopHead? && !Passes(b.t, x.s, i) then Ok(i, caps)
    else
      match EvalB(b.b, x, if b.Loop? then i else i + CheckStep(b.t), caps)
      case Ok(j, c2) => if j > i then EvalRounds(b, x, j, c2) else Diverge
      case Fail => if b.Loop? then Ok(i, caps) else Fail
      case Diverge => Diverge
  }

  function EvalOpts(b: Block, n: nat, x: Subject, i: int, caps: seq<Capture>): (r: Res)
    requires b.OptHead? && 0 <= i <= |x.s|
    ensures r.Ok? ==> 0 <= r.j <= |x.s|
    decreases b, 0, n
  {
    if n == 0 || !Passes(b.t, x.s, i) then Ok(i, caps)
    else
      match EvalB(b.b, x, i + CheckStep(b.t), caps)
      case Ok(j, c2) => EvalOpts(b, n - 1, x, j, c2)
      case r => r
  }

  // ---- what holds of every block that the builders make ----

  /** No instruction of b can fail or jump. */
  predicate NoFail(b: Block) {
    b.End? || (b.Prim? && (b.i.ISpan? || b.i.ICapture?) && NoFail(b.k))
  }

  /** An alternative that starts with a choice of the empty pattern, and so never fails. */
  predicate SoftElse(b: Block) {
    b.End? || (b.Union? && b.ot.None? && b.first.End? && b.m == 0 && b.k.End?)
  }

  predicate GoodCheck(ck: Check) {
    CheckStep(ck) >= 1
  }

  predicate GoodPrim(i: Cell) {
    (i.ICheck? && i.offset == 0 && GoodCheck(i.ck)) || i.ISpan? || i == IBack(1) || i.IFail? || i.IOpenCall?
    || (i.ICapture? && i.off <= MAX_OFF)
  }

  predicate Shape(b: Block) {
    match b
    case End => true
    case Prim(i, k) => GoodPrim(i) && Shape(k)
    case TestJmp(t, b1, b2, _, k) =>
      GoodCheck(t) && Shape(b1) && Shape(b2) && Shape(k)
    case Union(ot, aux, first, more, m, els, _, k) =>
      && (ot.Some? ==> GoodCheck(ot.value))
      && aux <= OtStep(ot)
      && (m > 0 ==> SoftElse(els))
      && Shape(first) && Shape(more) && Shape(els) && Shape(k)
    case Not(ot, b1, _, k) => (ot.Some? ==> GoodCheck(ot.value)) && Shape(b1) && Shape(k)
    case NotHead(t, b1, _, k) => GoodCheck(t) && NoFail(b1) && Shape(b1) && Shape(k)
    case And(b1, _, k) => Shape(b1) && Shape(k)
    case Loop(b1, _, k) => Shape(b1) && Shape(k)
    case LoopHead(t, b1, _, k) => GoodCheck(t) && NoFail(b1) && Shape(b1) && Shape(k)
    case OptHead(t, b1, n, _, k) => n > 0 && GoodCheck(t) && NoFail(b1) && Shape(b1) && Shape(k)
  }

  predicate StartsWithBack(b: Block) {
    b.Prim? && b.i.IBack?
  }

  /**
    May the block reach its end while every check fails and every predicate succeeds?  A step
    back right behind a check, or behind a test, stands for an and-predicate.
   */
  predicate Nullable(b: Block) {
    match b
    case End => true
    case Prim(i, k) =>
      if i.ICheck? then StartsWithBack(k) && Nullable(k.k) else (i.ISpan? || i.ICapture?) && Nullable(k)
    case TestJmp(_, b1, b2, _, k) => (if StartsWithBack(b1) then Nullable(b1.k) else Nullable(b2)) && Nullable(k)
    case Union(ot, _, first, more, m, els, _, k) =>
      ((ot.None? && Nullable(first) && (m == 0 || Nullable(more))) || Nullable(els)) && Nullable(k)
    case Not(_, _, _, k) => Nullable(k)
    case NotHead(_, _, _, k) => Nullable(k)
    case And(_, _, k) => Nullable(k)
    case Loop(_, _, k) => Nullable(k)
    case LoopHead(_, _, _, k) => Nullable(k)
    case OptHead(_, _, _, _, k) => Nullable(k)
  }

  /** The code of b starts with a check, or with a test of an outermost union. */
  predicate StartsWithTest(b: Block) {
    (b.Prim? && b.i.ICheck?) || (b.TestJmp? && b.k.End?) || (b.Union? && b.ot.Some? && b.k.End?)
  }

  /**
    Every step back takes back a byte of a check in front of it, and no body of a loop is
    nullable for verify; `fed` tells that such a check stands before b.
   */
  predicate Backed(b: Block, fed: bool) {
    match b
    case End => true
    case Prim(i, k) => if i.IBack? then fed && Backed(k, false) else Backed(k, i.ICheck? || (i.ICapture? && fed))
    case TestJmp(_, b1, b2, _, k) =>
      (StartsWithBack(b1) ==> StartsWithTest(b2)) && Backed(b1, true) && Backed(b2, false) && Backed(k, false)
    case Union(ot, _, first, more, _, els, _, k) =>
      Backed(first, ot.Some?) && Backed(more, false) && Backed(els, false) && Backed(k, false)
    case Not(ot, b1, _, k) => Backed(b1, ot.Some?) && Backed(k, false)
    case NotHead(_, b1, _, k) => Backed(b1, true) && Backed(k, false)
    case And(b1, _, k) => Backed(b1, false) && Backed(k, false)
    case Loop(b1, _, k) => !Nullable(b1) && Backed(b1, false) && Backed(k, false)
    case LoopHead(_, b1, _, k) => Backed(b1, true) && Backed(k, false)
    case OptHead(_, b1, _, _, k) => Backed(b1, true) && Backed(k, false)
  }

  /** Open and close captures pair up within b, d of them being open at its start. */
  predicate Balanced(b: Block, d: nat) {
    match b
    case End => d == 0
    case Prim(i, k) =>
      if i.ICapture? && i.op.OpenCap? then Balanced(k, d + 1)
      else if i.ICapture? && i.op.CloseCap? then d > 0 && Balanced(k, d - 1)
      else Balanced(k, d)
    case TestJmp(_, b1, b2, _, k) => Balanced(b1, 0) && Balanced(b2, 0) && Balanced(k, d)
    case Union(_, _, first, more, _, els, _, k) =>
      Balanced(first, 0) && Balanced(more, 0) && Balanced(els, 0) && Balanced(k, d)
    case Not(_, b1, _, k) => Balanced(b1, 0) && Balanced(k, d)
    case NotHead(_, b1, _, k) => Balanced(b1, 0) && Balanced(k, d)
    case And(b1, _, k) => Balanced(b1, 0) && Balanced(k, d)
    case Loop(b1, _, k) => Balanced(b1, 0) && Balanced(k, d)
    case LoopHead(_, b1, _, k) => Balanced(b1, 0) && Balanced(k, d)
    case OptHead(_, b1, _, _, k) => Balanced(b1, 0) && Balanced(k, d)
  }

  /** How far jumps lead from the end of the first item, when they lead d from the end of b. */
  function ItemSlide(k: Block, d: nat): nat {
    if k.End? then d else 0
  }

  predicate GoodExit(x: nat, k: Block, d: nat) {
    x == 0 || x == ItemSlide(k, d)
  }

  /** Every exit in b is 0 or follows the jumps found at the end of its item. */
  predicate Valid(b: Block, d: nat) {
    match b
    case End => true
    case Prim(_, k) => Valid(k, d)
    case TestJmp(_, b1, b2, x, k) =>
      && GoodExit(x, k, d)
      && Valid(b1, 1 + |Flat(b2)| + x) && Valid(b2, ItemSlide(k, d)) && Valid(k, d)
    case Union(_, _, first, more, _, els, x, k) =>
      && GoodExit(x, k, d)
      && Valid(first, 0) && Valid(more, 0) && Valid(els, ItemSlide(k, d)) && Valid(k, d)
    case Not(_, b1, x, k) => GoodExit(x, k, d) && Valid(b1, 0) && Valid(k, d)
    case NotHead(_, b1, x, k) => GoodExit(x, k, d) && Valid(b1, 0) && Valid(k, d)
    case And(b1, x, k) => GoodExit(x, k, d) && Valid(b1, 0) && Valid(k, d)
    case Loop(b1, x, k) => GoodExit(x, k, d) && Valid(b1, 0) && Valid(k, d)
    case LoopHead(_, b1, x, k) => GoodExit(x, k, d) && Valid(b1, 0) && Valid(k, d)
    case OptHead(_, b1, _, x, k) => GoodExit(x, k, d) && Valid(b1, 0) && Valid(k, d)
  }

  /** b fails at every position whose byte is in cs: each of its alternatives starts with a check outside cs. */
  predicate Avoids(cs: Charset, b: Block) {
    match b
    case Prim(i, _) => i.ICheck? && StartSet(i.ck) !! cs
    case TestJmp(t, _, b2, _, k) => k.End? && StartSet(t) !! cs && Avoids(cs, b2)
    case Union(ot, _, _, _, _, els, _, k) => k.End? && ot.Some? && StartSet(ot.value) !! cs && Avoids(cs, els)
    case _ => false
  }

  /**
    What an outermost union keeps so that it can be split again: no jump has been threaded
    along its alternatives, and an alternative that can fail behind its test rules out the others.
   */
  predicate Spine(b: Block) {
    match b
    case TestJmp(t, b1, b2, _, k) =>
      k.End? ==> Valid(b1, 0) && Spine(b2) && (NoFail(b1) || Avoids(StartSet(t), b2))
    case Union(_, _, _, _, _, els, _, k) => k.End? ==> Spine(els)
    case _ => true
  }

  predicate Good(b: Block) {
    Shape(b) && Balanced(b, 0) && Valid(b, 0) && Spine(b) && Backed(b, false)
  }
}
