/** The verifier finds exactly the blocks that may succeed without consuming a byte. */
module LpegVerify {
  import opened LpegCode
  import opened LpegMachine
  import opened LpegPeg
  import opened LpegBlock
  import opened LpegExec
  import opened LpegRun
  import opened LpegBuild
  import opened LpegShape

  predicate ItemNullable(b: Block) {
    match b
    case End => true
    case Prim(i, _) => i.ISpan? || i.ICapture?
    case TestJmp(_, b1, b2, _, _) => if StartsWithBack(b1) then Nullable(b1.k) else Nullable(b2)
    case Union(ot, _, first, more, m, els, _, _) =>
      (ot.None? && Nullable(first) && (m == 0 || Nullable(more))) || Nullable(els)
    case _ => true
  }

  /** A check with the step back that makes it an and-predicate. */
  predicate LooksAhead(b: Block) {
    b.Prim? && b.i.ICheck? && StartsWithBack(b.k)
  }

  /** Every step back stands directly behind its own check. */
  predicate Checked(b: Block) {
    match b
    case End => true
    case Prim(i, k) => if i.ICheck? && StartsWithBack(k) then Checked(k.k) else !i.IBack? && Checked(k)
    case TestJmp(_, b1, b2, _, k) => Checked(b1) && Checked(b2) && Checked(k)
    case Union(_, _, first, more, m, els, _, k) => Checked(first) && (m > 0 ==> Checked(more)) && Checked(els)
      && Checked(k)
    case Not(_, b1, _, k) => Checked(b1) && Checked(k)
    case NotHead(_, b1, _, k) => Checked(b1) && Checked(k)
    case And(b1, _, k) => Checked(b1) && Checked(k)
    case Loop(b1, _, k) => Checked(b1) && Checked(k)
    case LoopHead(_, b1, _, k) => Checked(b1) && Checked(k)
    case OptHead(_, b1, _, _, k) => Checked(b1) && Checked(k)
  }

  // ---- soundness: what is not nullable consumes ----

  /** The outcome r of a run from i moves forward, and stays at i only if `nullable`. */
  predicate Forward(r: Res, i: int, nullable: bool) {
    r.Ok? ==> r.j >= i && (r.j == i ==> nullable)
  }

  /** References consume, as verify takes them to do before a grammar is fixed. */
  ghost predicate CallsConsume(x: Subject) {
    forall key: int, i: int :: Referred(x, key, i).Ok? ==> Referred(x, key, i).j > i
  }

  /** Every successful run of a block that is not nullable consumes a byte. */
  lemma {:induction false} NullableSound(b: Block, x: Subject, i: int, caps: seq<Capture>)
    requires CallsConsume(x) && 0 <= i <= |x.s| && Shape(b) && Checked(b)
    ensures Forward(EvalB(b, x, i, caps), i, Nullable(b))
    decreases b, 2, 0
  {
    if LooksAhead(b) {
      LookStep(b, x, i, caps);
      if Passes(b.i.ck, x.s, i) { NullableSound(b.k.k, x, i + CheckStep(b.i.ck) - 1, caps); }
    } else if !b.End? {
      hide EvalItem, Shape, Checked;
      SubOk(b);
      ItemSound(b, x, i, caps);
      var r := EvalItem(b, x, i, caps);
      if r.Ok? { NullableSound(b.k, x, r.j, r.caps); }
    }
  }

  lemma LookStep(b: Block, x: Subject, i: int, caps: seq<Capture>)
    requires LooksAhead(b) && 0 <= i <= |x.s| && Shape(b)
    ensures Shape(b.k.k) && CheckStep(b.i.ck) >= 1
    ensures EvalB(b, x, i, caps) == if Passes(b.i.ck, x.s, i) then EvalB(b.k.k, x, i + CheckStep(b.i.ck) - 1, caps)
            else Fail
  {
    if Passes(b.i.ck, x.s, i) {
      assert EvalB(b.k, x, i + CheckStep(b.i.ck), caps) == EvalB(b.k.k, x, i + CheckStep(b.i.ck) - 1, caps);
    }
  }

  lemma SubOk(b: Block)
    requires !b.End? && Shape(b) && Checked(b) && !LooksAhead(b)
    ensures Shape(b.k) && Checked(b.k) && (Nullable(b) ==> ItemNullable(b) && Nullable(b.k))
    ensures ItemNullable(b) && Nullable(b.k) ==> Nullable(b)
  {
  }

  lemma {:induction false} ItemSound(b: Block, x: Subject, i: int, caps: seq<Capture>)
    requires CallsConsume(x) && !b.End? && 0 <= i <= |x.s| && Shape(b) && Checked(b) && !LooksAhead(b)
    ensures Forward(EvalItem(b, x, i, caps), i, ItemNullable(b))
    decreases b, 1, 0
  {
    hide EvalB;
    match b
    case Prim(_, _) =>
    case TestJmp(t, b1, b2, _, _) =>
      if Passes(t, x.s, i) { NullableSound(b1, x, i + CheckStep(t), caps); } else { NullableSound(b2, x, i, caps); }
    case Union(_, _, _, _, _, _, _, _) => UnionSound(b, x, i, caps);
    case Not(ot, b1, _, _) => if OtPasses(ot, x, i) { NullableSound(b1, x, i + OtStep(ot), caps); }
    case NotHead(t, b1, _, _) => if Passes(t, x.s, i) { NullableSound(b1, x, i + CheckStep(t), caps); }
    case And(b1, _, _) => NullableSound(b1, x, i, caps);
    case Loop(_, _, _) => RoundsSound(b, x, i, caps);
    case LoopHead(_, _, _, _) => RoundsSound(b, x, i, caps);
    case OptHead(_, _, n, _, _) => OptsSound(b, n, x, i, caps);
  }

  lemma {:induction false} UnionSound(b: Block, x: Subject, i: int, caps: seq<Capture>)
    requires CallsConsume(x) && b.Union? && 0 <= i <= |x.s| && Shape(b) && Checked(b)
    ensures Forward(EvalItem(b, x, i, caps), i, ItemNullable(b))
    decreases b, 0, b.m + 1
  {
    hide EvalB, EvalMore;
    var ot, aux := b.ot, b.aux;
    if !OtPasses(ot, x, i) {
      NullableSound(b.els, x, i, caps);
    } else {
      var i1 := i + OtStep(ot);
      NullableSound(b.first, x, i1, caps);
      NullableSound(b.els, x, i1 - aux, caps);
      var r := EvalB(b.first, x, i1, caps);
      if r.Ok? { MoreSound(b, b.m, x, r.j, r.caps); }
    }
  }

  lemma {:induction false} MoreSound(b: Block, m: nat, x: Subject, i: int, caps: seq<Capture>)
    requires CallsConsume(x) && b.Union? && 0 <= i <= |x.s| && Shape(b) && Checked(b) && m <= b.m
    ensures Forward(EvalMore(b, m, x, i, caps), i, m == 0 || Nullable(b.more) || Nullable(b.els))
    decreases b, 0, m
  {
    hide EvalB;
    if m > 0 {
      NullableSound(b.more, x, i, caps);
      NullableSound(b.els, x, i, caps);
      var r := EvalB(b.more, x, i, caps);
      if r.Ok? { MoreSound(b, m - 1, x, r.j, r.caps); }
    }
  }

  lemma {:induction false} RoundsSound(b: Block, x: Subject, i: int, caps: seq<Capture>)
    requires CallsConsume(x) && (b.Loop? || b.LoopHead?) && 0 <= i <= |x.s| && Shape(b) && Checked(b)
    ensures Forward(EvalRounds(b, x, i, caps), i, true)
    decreases b, 0, |x.s| - i
  {
    hide EvalB;
    if b.LoopHead? && !Passes(b.t, x.s, i) {
    } else {
      var i0 := if b.Loop? then i else i + CheckStep(b.t);
      NullableSound(b.b, x, i0, caps);
      var r := EvalB(b.b, x, i0, caps);
      if r.Ok? && r.j > i { RoundsSound(b, x, r.j, r.caps); }
    }
  }

  lemma {:induction false} OptsSound(b: Block, n: nat, x: Subject, i: int, caps: seq<Capture>)
    requires CallsConsume(x) && b.OptHead? && 0 <= i <= |x.s| && Shape(b) && Checked(b)
    ensures Forward(EvalOpts(b, n, x, i, caps), i, true)
    decreases b, 0, n
  {
    hide EvalB;
    if n > 0 && Passes(b.t, x.s, i) {
      NullableSound(b.b, x, i + CheckStep(b.t), caps);
      var r := EvalB(b.b, x, i + CheckStep(b.t), caps);
      if r.Ok? { OptsSound(b, n - 1, x, r.j, r.caps); }
    }
  }

  // ---- the raw verifier computes Nullable ----

  /** Where the verifier goes on when the code it looks at fails. */
  function Resume(c: Code, back: seq<VEntry>): VRes {
    if back == [] then Consumes else VRun2(c, back[|back| - 1].p, back[..|back| - 1])
  }

  function VRun2(c: Code, p: int, back: seq<VEntry>): VRes {
    if p >= 0 then VRun(c, p, back) else VStuck
  }

  /** Every saved entry is a choice that leads to a word beyond q. */
  ghost predicate Above(c: Code, back: seq<VEntry>, q: int) {
    forall i :: 0 <= i < |back| ==> !back[i].isCall && q < back[i].p <= |c|
  }

  lemma FailResumes(c: Code, p: nat, back: seq<VEntry>)
    requires Above(c, back, p)
    ensures VFail(c, p, back) == Resume(c, back)
  {
    if back != [] {
      assert !back[|back| - 1].isCall && p < back[|back| - 1].p <= |c|;
    }
  }

  /** Verifying from word q or from word q2 is the same. */
  ghost predicate VSlides(c: Code, q: int, q2: int) {
    0 <= q <= q2 <= |c| && forall back: seq<VEntry> :: VRun2(c, q, back) == VRun2(c, q2, back)
  }

  lemma VSlidesJmp(c: Code, q: int, d: int)
    requires 0 <= q && At(c, q) == IJmp(d) && d >= 1 && q + d <= |c|
    ensures VSlides(c, q, q + d)
  {
    forall back: seq<VEntry> ensures VRun2(c, q, back) == VRun2(c, q + d, back) {
      assert VRun(c, q, back) == VGo(c, q, q + d, back);
    }
  }

  function Most(a: nat, b: nat): nat {
    if a > b then a else b
  }

  /** The entries that verify saves at most for the first item of b. */
  function ItemDepth(b: Block): nat
    decreases b, 1
  {
    match b
    case TestJmp(_, b1, b2, _, _) => if StartsWithBack(b1) then SaveDepth(b1.k) else SaveDepth(b2)
    case Union(ot, _, _, _, m, els, _, _) =>
      if ot.Some? then SaveDepth(els) else Most(UnionDepth(b), if BodyNullable(b) then 0 else SaveDepth(els))
    case Not(ot, b1, _, _) => if ot.Some? then 0 else 1 + SaveDepth(b1)
    case And(b1, _, _) => 1 + SaveDepth(b1)
    case Loop(b1, _, _) => 1 + SaveDepth(b1)
    case _ => 0
  }

  /** The entries that verify saves at most for b, on the way that it takes through it. */
  function SaveDepth(b: Block): nat
    decreases b, 2
  {
    if b.End? then 0
    else if b.Prim? && b.i.ICheck? then if StartsWithBack(b.k) then SaveDepth(b.k.k) else 0
    else Most(ItemDepth(b), if ItemNullable(b) then SaveDepth(b.k) else 0)
  }

  /** A union's first alternative in all its copies, under its choice. */
  function UnionDepth(b: Block): nat
    requires b.Union?
    decreases b, 0
  {
    1 + Most(SaveDepth(b.first), if Nullable(b.first) && b.m > 0 then SaveDepth(b.more) else 0)
  }

  predicate BodyNullable(b: Block)
    requires b.Union?
  {
    Nullable(b.first) && (b.m == 0 || Nullable(b.more))
  }

  /** Is there no room for `depth` entries above those saved? */
  predicate TooFar(back: seq<VEntry>, depth: nat) {
    depth > 0 && |back| + depth > MAX_BACK_VER
  }

  lemma TooFarOver(back: seq<VEntry>, e: VEntry, d: nat)
    ensures TooFar(back, 1 + d) <==> |back| >= MAX_BACK_VER || TooFar(back + [e], d)
  {
  }

  /** The verdict r on code that ends at word q: it was too deep, or went on as `nullable` says. */
  ghost predicate Verdict(c: Code, r: VRes, nullable: bool, depth: nat, q: int, back: seq<VEntry>) {
    r == if TooFar(back, depth) then TooDeep else if nullable then VRun2(c, q, back) else Resume(c, back)
  }

  /** A failing instruction at word p is not taken for the end of an and-predicate. */
  ghost predicate Clear(c: Code, p: int) {
    p <= 0 || p > |c| || !c[p - 1].IBackCommit?
  }

  lemma {:induction false} VBlock(c: Code, p: int, b: Block, d: nat, back: seq<VEntry>)
    requires Sub(c, p, Flat(b)) && Shape(b) && Valid(b, d) && Backed(b, false) && Clear(c, p)
    requires Above(c, back, p + |Flat(b)| + d) && VSlides(c, p + |Flat(b)|, p + |Flat(b)| + d)
    requires !At(c, p + |Flat(b)|).IBack?
    ensures Verdict(c, VRun2(c, p, back), Nullable(b), SaveDepth(b), p + |Flat(b)| + d, back)
    decreases b, 4
  {
    hide Flat, ItemWords, VRun, Shape, Valid, Backed, ItemAt, Above;
    if b.End? {
      NoWords();
    } else if b.Prim? && b.i.ICheck? {
      VCheck(c, p, b, d, back);
    } else {
      FlatSplit(c, p, b);
      var z := p + |ItemWords(b)|;
      TailFacts(b, d);
      ItemSlides(c, z, b.k, d);
      AboveItem(c, back, z, b.k, d);
      NextWord(c, z, b.k);
      VItem(c, p, z, b, d, back);
      LastClear(c, p, b);
      if !b.k.End? {
        VBlock(c, z, b.k, d, back);
      } else {
        NoWords();
      }
    }
  }

  lemma AboveItem(c: Code, back: seq<VEntry>, z: int, k: Block, d: nat)
    requires Above(c, back, z + |Flat(k)| + d)
    ensures Above(c, back, z + ItemSlide(k, d))
  {
    if k.End? { NoWords(); }
  }

  /** The word at which block k starts, or where the code goes on behind the end of an empty one. */
  lemma NextWord(c: Code, z: int, k: Block)
    requires Sub(c, z, Flat(k)) && Shape(k) && !At(c, z + |Flat(k)|).IBack?
    ensures At(c, z).IBack? <==> StartsWithBack(k)
    ensures Backed(k, false) ==> !At(c, z).IBack?
  {
    if k.End? {
      NoWords();
    } else {
      ItemHead(k);
      FlatEmpty(k);
      SubAt(c, z, Flat(k), 0);
    }
  }

  /** A check fails, unless a step back behind it makes it an and-predicate. */
  lemma {:induction false} VCheck(c: Code, p: int, b: Block, d: nat, back: seq<VEntry>)
    requires b.Prim? && b.i.ICheck? && Sub(c, p, Flat(b)) && Shape(b) && Valid(b, d) && Backed(b, false) && Clear(c, p)
    requires Above(c, back, p + |Flat(b)| + d) && VSlides(c, p + |Flat(b)|, p + |Flat(b)| + d)
    requires !At(c, p + |Flat(b)|).IBack?
    ensures Verdict(c, VRun2(c, p, back), Nullable(b), SaveDepth(b), p + |Flat(b)| + d, back)
    decreases b, 3
  {
    hide Flat, ItemWords, VRun, Valid, ItemAt, Above, VSlides;
    FlatSplit(c, p, b);
    TailFacts(b, d);
    SubAt(c, p, ItemWords(b), 0) by { ItemHead(b); }
    PrimItemWords(b);
    var z := p + |ItemWords(b)|;
    NextWord(c, z, b.k);
    VCheckStep(c, p, b.i.ck, back);
    if StartsWithBack(b.k) {
      FlatSplit(c, z, b.k);
      BackTail(b.k, d);
      SubAt(c, z, ItemWords(b.k), 0) by { ItemHead(b.k); }
      PrimItemWords(b.k);
      VBlock(c, z + 1, b.k.k, d, back);
    } else {
      AboveLess(c, back, p + |Flat(b)| + d, p);
      FailResumes(c, p, back);
    }
  }

  lemma PrimItemWords(b: Block)
    requires b.Prim?
    ensures ItemWords(b) == Words(b.i) && |ItemWords(b)| == Size(b.i) && ItemWords(b)[0] == b.i
  {
  }

  lemma AboveLess(c: Code, back: seq<VEntry>, q: int, p: int)
    requires Above(c, back, q) && p <= q
    ensures Above(c, back, p)
  {
  }

  lemma VCheckStep(c: Code, p: int, ck: Check, back: seq<VEntry>)
    requires 0 <= p < |c| && c[p] == ICheck(ck, 0) && p + CheckSize(ck) <= |c|
    ensures At(c, p + CheckSize(ck)).IBack? ==> VRun2(c, p, back) == VRun2(c, p + CheckSize(ck) + 1, back)
    ensures !At(c, p + CheckSize(ck)).IBack? ==> VRun2(c, p, back) == VFail(c, p, back)
  {
    if At(c, p + CheckSize(ck)).IBack? {
      assert VRun(c, p, back) == VGo(c, p, p + CheckSize(ck) + 1, back);
    }
  }

  lemma TailFacts(b: Block, d: nat)
    requires !b.End? && Shape(b) && Valid(b, d) && Backed(b, false)
    ensures Shape(b.k) && Valid(b.k, d)
    ensures Backed(b.k, b.Prim? && b.i.ICheck?)
    ensures (if b.Prim? && b.i.ICheck? then Nullable(b) <==> StartsWithBack(b.k) && Nullable(b.k.k)
             else Nullable(b) <==> ItemNullable(b) && Nullable(b.k))
  {
  }

  lemma ItemSlides(c: Code, z: int, k: Block, d: nat)
    requires Sub(c, z, Flat(k)) && VSlides(c, z + |Flat(k)|, z + |Flat(k)| + d)
    ensures VSlides(c, z, z + ItemSlide(k, d))
  {
    if k.End? { NoWords(); }
  }

  /** The last word of an item is never a back commit. */
  lemma LastClear(c: Code, p: int, b: Block)
    requires !b.End? && Sub(c, p, ItemWords(b)) && Shape(b)
    ensures Clear(c, p + |ItemWords(b)|)
  {
    ItemHead(b);
    LastWordOf(b);
    SubAt(c, p, ItemWords(b), |ItemWords(b)| - 1);
  }

  lemma {:induction false} LastWordOf(b: Block)
    requires !b.End? && Shape(b)
    ensures |ItemWords(b)| > 0 && !ItemWords(b)[|ItemWords(b)| - 1].IBackCommit?
    decreases b, 0
  {
    hide Flat;
    ItemHead(b);
    match b
    case TestJmp(t, b1, b2, x, _) =>
      LastFlat(b2);
      var offset := CheckSize(t) + |Flat(b1)| + 1 + Exit(b2, x);
      LastJoin(Words(ICheck(t, offset)) + Flat(b1) + [IJmp(1 + |Flat(b2)| + x)], Flat(b2));
    case Union(ot, aux, first, more, m, els, x, _) =>
      LastFlat(els);
      var body := Flat(first) + MoreWords(Flat(more), m);
      LastJoin(OtChoice(ot, aux, 1 + |body| + 1 + Exit(els, x)) + body + [ICommit(1 + |Flat(els)| + x)], Flat(els));
    case OptHead(t, b1, n, x, _) => LastFlat(b1); LastOpt(t, Flat(b1), n, x);
    case _ =>
  }

  lemma LastJoin(f: Code, g: Code)
    requires f != [] && !f[|f| - 1].IBackCommit? && (g == [] || !g[|g| - 1].IBackCommit?)
    ensures !(f + g)[|f + g| - 1].IBackCommit?
  {
  }

  lemma {:induction false} LastFlat(b: Block)
    requires Shape(b)
    ensures Flat(b) == [] || !Flat(b)[|Flat(b)| - 1].IBackCommit?
    decreases b, 1
  {
    if !b.End? {
      LastWordOf(b);
      LastFlat(b.k);
    }
  }

  lemma {:induction false} LastOpt(t: Check, f: Code, n: nat, x: nat)
    requires n > 0 && (f == [] || !f[|f| - 1].IBackCommit?)
    ensures var w := OptWords(t, f, n, x); |w| > 0 && !w[|w| - 1].IBackCommit?
    decreases n
  {
    if n > 1 { LastOpt(t, f, n - 1, x); }
  }

  // ---- one item ----

  /** Leaving an item through its exit. */
  lemma VExit(c: Code, z: int, k: Block, x: nat, d: nat, back: seq<VEntry>)
    requires VSlides(c, z, z + ItemSlide(k, d)) && GoodExit(x, k, d)
    ensures VRun2(c, z + x, back) == VRun2(c, z + ItemSlide(k, d), back) && z + x <= |c|
  {
  }

  lemma VTest(c: Code, p: int, t: Check, offset: int, back: seq<VEntry>)
    requires p >= 0 && At(c, p) == ICheck(t, offset) && offset > 0 && p + offset <= |c|
             && !At(c, p + CheckSize(t)).IBack?
    ensures VRun2(c, p, back) == VRun2(c, p + offset, back)
  {
    assert VRun(c, p, back) == VGo(c, p, p + offset, back);
  }

  lemma VChoice(c: Code, p: int, offset: int, aux: nat, back: seq<VEntry>)
    requires 0 <= p && p + 1 <= |c| && At(c, p) == IChoice(offset, aux)
    ensures VRun2(c, p, back) ==
            if |back| >= MAX_BACK_VER then TooDeep else VRun2(c, p + 1, back + [VEntry(false, p + offset)])
  {
    assert |back| < MAX_BACK_VER ==> VRun(c, p, back) == VGo(c, p, p + 1, back + [VEntry(false, p + offset)]);
  }

  /** A body under a fresh choice that leads to word out. */
  lemma {:induction false} VUnder(c: Code, p: int, b1: Block, out: int, back: seq<VEntry>)
    requires Sub(c, p, Flat(b1)) && Shape(b1) && Valid(b1, 0) && Backed(b1, false) && !At(c, p + |Flat(b1)|).IBack?
             && Clear(c, p)
    requires p + |Flat(b1)| < out <= |c| && Above(c, back, p + |Flat(b1)|)
    ensures var over := back + [VEntry(false, out)]; var r := VRun2(c, p, over);
            r == if TooFar(over, SaveDepth(b1)) then TooDeep
                 else if Nullable(b1) then VRun2(c, p + |Flat(b1)|, over) else VRun2(c, out, back)
    decreases b1, 5
  {
    hide VRun;
    var over := back + [VEntry(false, out)];
    assert over[..|over| - 1] == back;
    VBlock(c, p, b1, 0, over);
  }

  lemma {:induction false} VItem(c: Code, p: int, z: int, b: Block, d: nat, back: seq<VEntry>)
    requires !b.End? && !(b.Prim? && b.i.ICheck?) && Sub(c, p, ItemWords(b)) && z == p + |ItemWords(b)|
    requires Shape(b) && Valid(b, d) && Backed(b, false) && !At(c, z).IBack? && Clear(c, p)
    requires Above(c, back, z + ItemSlide(b.k, d)) && VSlides(c, z, z + ItemSlide(b.k, d))
    ensures Verdict(c, VRun2(c, p, back), ItemNullable(b), ItemDepth(b), z + ItemSlide(b.k, d), back)
    decreases b, 3
  {
    hide *;
    if b.Prim? {
      VPrim(c, p, z, b, d, back);
    } else {
      Layout(c, p, b);
      if !b.TestJmp? && !b.Union? { OtherNullable(b); }
      match b
      case TestJmp(_, _, _, _, _) => VTestJmp(c, p, z, b, d, back);
      case Union(_, _, _, _, _, _, _, _) => VUnion(c, p, z, b, d, back);
      case Not(_, _, _, _) => VNot(c, p, z, b, d, back);
      case NotHead(_, _, _, _) => VHeadItem(c, p, z, b, d, back);
      case And(_, _, _) => VAnd(c, p, z, b, d, back);
      case Loop(_, _, _) => VLoop(c, p, z, b, d, back);
      case LoopHead(_, _, _, _) => VHeadItem(c, p, z, b, d, back);
      case OptHead(_, _, _, _, _) => VHeadItem(c, p, z, b, d, back);
    }
  }

  lemma OtherNullable(b: Block)
    requires !b.Prim? && !b.TestJmp? && !b.Union?
    ensures ItemNullable(b)
  {
  }

  /** An item that starts with a test and whose body cannot fail. */
  lemma VHeadItem(c: Code, p: int, z: int, b: Block, d: nat, back: seq<VEntry>)
    requires (b.NotHead? || b.LoopHead? || b.OptHead?) && ItemAt(c, p, z, b) && Shape(b) && Valid(b, d)
             && !At(c, z).IBack?
    requires VSlides(c, z, z + ItemSlide(b.k, d))
    ensures ItemNullable(b) && Verdict(c, VRun2(c, p, back), true, ItemDepth(b), z + ItemSlide(b.k, d), back)
  {
    hide VRun, Flat, Above, VSlides, Verdict, VRun2, At;
    OtherNullable(b);
    if b.OptHead? { OptPlaced(c, p, z, b); } else { HeadPlaced(c, p, z, b); }
    BodyWord(c, p + CheckSize(b.t), b.b);
    HeadExit(b, d);
    VHead(c, p, z, b.t, b.x, b.k, d, back);
  }

  lemma HeadExit(b: Block, d: nat)
    requires (b.NotHead? || b.LoopHead? || b.OptHead?) && Shape(b) && Valid(b, d)
    ensures GoodExit(b.x, b.k, d) && Shape(b.b) && NoFail(b.b)
  {
  }

  lemma HeadPlaced(c: Code, p: int, z: int, b: Block)
    requires (b.NotHead? || b.LoopHead?) && ItemAt(c, p, z, b) && !At(c, z).IBack?
    ensures 0 <= p < z && At(c, p) == ICheck(b.t, z + b.x - p)
    ensures Sub(c, p + CheckSize(b.t), Flat(b.b)) && !At(c, p + CheckSize(b.t) + |Flat(b.b)|).IBack?
  {
    hide Flat;
  }

  lemma OptPlaced(c: Code, p: int, z: int, b: Block)
    requires b.OptHead? && b.n > 0 && ItemAt(c, p, z, b) && !At(c, z).IBack?
    ensures 0 <= p < z && At(c, p) == ICheck(b.t, z + b.x - p)
    ensures Sub(c, p + CheckSize(b.t), Flat(b.b)) && !At(c, p + CheckSize(b.t) + |Flat(b.b)|).IBack?
  {
    hide Flat, At, OptWords;
    OptLayout(c, z, b.t, Flat(b.b), b.n, b.x, p);
    NextCopy(c, z, b, b.n - 1, p + CheckSize(b.t) + |Flat(b.b)|);
  }

  lemma VPrim(c: Code, p: int, z: int, b: Block, d: nat, back: seq<VEntry>)
    requires b.Prim? && !b.i.ICheck? && Sub(c, p, ItemWords(b)) && z == p + |ItemWords(b)|
    requires Shape(b) && Backed(b, false) && Clear(c, p)
    requires Above(c, back, z + ItemSlide(b.k, d)) && VSlides(c, z, z + ItemSlide(b.k, d))
    ensures Verdict(c, VRun2(c, p, back), ItemNullable(b), ItemDepth(b), z + ItemSlide(b.k, d), back)
  {
    SubAt(c, p, ItemWords(b), 0);
    assert c[p] == b.i;
    if b.i.IOpenCall? || b.i.IFail? {
      FailResumes(c, p, back);
    } else {
      VExit(c, z, b.k, 0, d, back);
      assert VRun(c, p, back) == VGo(c, p, z, back);
    }
  }

  /** A body that cannot fail does not start with a step back. */
  lemma BodyWord(c: Code, p: int, b1: Block)
    requires Sub(c, p, Flat(b1)) && Shape(b1) && NoFail(b1) && !At(c, p + |Flat(b1)|).IBack?
    ensures !At(c, p).IBack?
  {
    NextWord(c, p, b1);
  }

  /** Behind a copy of an optional comes the next test, or the end of the item. */
  lemma NextCopy(c: Code, z: int, b: Block, n: nat, q: int)
    requires b.OptHead? && !At(c, z).IBack?
    requires Sub(c, q, OptWords(b.t, Flat(b.b), n, b.x)) && q + |OptWords(b.t, Flat(b.b), n, b.x)| == z
    ensures !At(c, q).IBack?
  {
    if n > 0 { OptLayout(c, z, b.t, Flat(b.b), n, b.x, q); }
  }

  /** A test that fails leads out of its item. */
  lemma VHead(c: Code, p: int, z: int, t: Check, x: nat, k: Block, d: nat, back: seq<VEntry>)
    requires p >= 0 && At(c, p) == ICheck(t, z + x - p) && p < z && !At(c, p + CheckSize(t)).IBack?
    requires VSlides(c, z, z + ItemSlide(k, d)) && GoodExit(x, k, d)
    ensures Verdict(c, VRun2(c, p, back), true, 0, z + ItemSlide(k, d), back)
  {
    hide VRun, VRun2;
    VExit(c, z, k, x, d, back);
    VTest(c, p, t, z + x - p, back);
  }

  /** The last alternative of an item, entered at its start or, when empty, at the item's exit. */
  lemma {:induction false} VAlternative(c: Code, pe: int, z: int, els: Block, x: nat, k: Block, d: nat,
      back: seq<VEntry>)
    requires Sub(c, pe, Flat(els)) && pe + |Flat(els)| == z && Shape(els) && Valid(els, ItemSlide(k, d))
             && Backed(els, false)
    requires !At(c, z).IBack? && Clear(c, pe) && GoodExit(x, k, d)
    requires Above(c, back, z + ItemSlide(k, d)) && VSlides(c, z, z + ItemSlide(k, d))
    ensures Verdict(c, VRun2(c, pe + Exit(els, x), back), Nullable(els), SaveDepth(els), z + ItemSlide(k, d), back)
            && pe + Exit(els, x) <= |c|
    decreases els, 5
  {
    hide VRun, VRun2, Flat;
    if els.End? {
      NoWords();
      VExit(c, z, k, x, d, back);
    } else {
      VBlock(c, pe, els, ItemSlide(k, d), back);
    }
  }

  lemma {:induction false} VTestJmp(c: Code, p: int, z: int, b: Block, d: nat, back: seq<VEntry>)
    requires b.TestJmp? && ItemAt(c, p, z, b) && Shape(b) && Valid(b, d) && Backed(b, false) && !At(c, z).IBack?
    requires Above(c, back, z + ItemSlide(b.k, d)) && VSlides(c, z, z + ItemSlide(b.k, d))
    ensures Verdict(c, VRun2(c, p, back), ItemNullable(b), ItemDepth(b), z + ItemSlide(b.k, d), back)
    decreases b, 2
  {
    hide VRun, VRun2, Flat, ItemWords, Verdict;
    var pe := z - |Flat(b.b2)|;
    TestFacts(c, p, z, b, d);
    if StartsWithBack(b.b1) {
      VTestBack(c, p, z, b, d, back);
    } else {
      VAlternative(c, pe, z, b.b2, b.x, b.k, d, back);
      VTest(c, p, b.t, pe + Exit(b.b2, b.x) - p, back);
    }
  }

  lemma TestFacts(c: Code, p: int, z: int, b: Block, d: nat)
    requires b.TestJmp? && ItemAt(c, p, z, b) && Shape(b) && Valid(b, d) && Backed(b, false)
    ensures var p1 := p + CheckSize(b.t); var q := p1 + |Flat(b.b1)|; var pe := z - |Flat(b.b2)|;
            && Sub(c, p1, Flat(b.b1)) && At(c, q) == IJmp(1 + |Flat(b.b2)| + b.x) && q + 1 == pe && 0 <= p < p1 <= q
            && At(c, p) == ICheck(b.t, pe + Exit(b.b2, b.x) - p) && Sub(c, pe, Flat(b.b2))
            && (!StartsWithBack(b.b1) ==> !At(c, p1).IBack?) && Clear(c, pe)
    ensures Shape(b.b1) && Shape(b.b2) && Valid(b.b1, 1 + |Flat(b.b2)| + b.x) && Valid(b.b2, ItemSlide(b.k, d))
    ensures Backed(b.b1, true) && Backed(b.b2, false) && GoodExit(b.x, b.k, d)
  {
    hide Flat;
    NextWord(c, p + CheckSize(b.t), b.b1);
  }

  /** A test with a step back behind it: the verifier goes on behind that, and never looks at the other branch. */
  lemma {:induction false} VTestBack(c: Code, p: int, z: int, b: Block, d: nat, back: seq<VEntry>)
    requires b.TestJmp? && StartsWithBack(b.b1) && ItemAt(c, p, z, b) && Shape(b) && Valid(b, d) && Backed(b, false)
             && !At(c, z).IBack?
    requires Above(c, back, z + ItemSlide(b.k, d)) && VSlides(c, z, z + ItemSlide(b.k, d))
    ensures Verdict(c, VRun2(c, p, back), Nullable(b.b1.k), SaveDepth(b.b1.k), z + ItemSlide(b.k, d), back)
    decreases b, 1
  {
    hide VRun, VRun2, Flat, ItemWords, Verdict, VSlides, Above, ItemAt, Shape, Valid, Backed;
    TestFacts(c, p, z, b, d);
    var p1, f2 := p + CheckSize(b.t), Flat(b.b2);
    var q, d1 := p1 + |Flat(b.b1)|, 1 + |f2| + b.x;
    FlatSplit(c, p1, b.b1);
    BackTail(b.b1, d1);
    PrimItemWords(b.b1);
    SubAt(c, p1, ItemWords(b.b1), 0);
    VExit(c, z, b.k, b.x, d, back);
    VSlidesJmp(c, q, d1);
    AboveLess(c, back, z + ItemSlide(b.k, d), z + b.x);
    VBlock(c, p1 + 1, b.b1.k, d1, back);
    VTestSkips(c, p, b.t, pe(z, f2) + Exit(b.b2, b.x) - p, back);
    SameEnd(c, VRun2(c, p, back), Nullable(b.b1.k), SaveDepth(b.b1.k), z + b.x, z + ItemSlide(b.k, d), back);
  }

  function pe(z: int, f2: Code): int {
    z - |f2|
  }

  lemma BackTail(b: Block, d: nat)
    requires StartsWithBack(b) && Shape(b) && Valid(b, d) && Backed(b, true)
    ensures Shape(b.k) && Valid(b.k, d) && Backed(b.k, false) && Size(b.i) == 1 && !b.i.IBackCommit?
  {
  }

  lemma VTestSkips(c: Code, p: int, t: Check, offset: int, back: seq<VEntry>)
    requires p >= 0 && At(c, p) == ICheck(t, offset) && offset > 0 && At(c, p + CheckSize(t)).IBack?
    ensures VRun2(c, p, back) == VRun2(c, p + CheckSize(t) + 1, back)
  {
    assert VRun(c, p, back) == VGo(c, p, p + CheckSize(t) + 1, back);
  }

  lemma SameEnd(c: Code, r: VRes, nullable: bool, depth: nat, q: int, q2: int, back: seq<VEntry>)
    requires Verdict(c, r, nullable, depth, q, back) && VRun2(c, q, back) == VRun2(c, q2, back)
    ensures Verdict(c, r, nullable, depth, q2, back)
  {
  }

  lemma {:induction false} VLoop(c: Code, p: int, z: int, b: Block, d: nat, back: seq<VEntry>)
    requires b.Loop? && ItemAt(c, p, z, b) && Shape(b) && Valid(b, d) && Backed(b, false) && !At(c, z).IBack?
    requires Above(c, back, z + ItemSlide(b.k, d)) && VSlides(c, z, z + ItemSlide(b.k, d))
    ensures Verdict(c, VRun2(c, p, back), true, ItemDepth(b), z + ItemSlide(b.k, d), back)
    decreases b, 2
  {
    hide VRun, VRun2, Flat, ItemWords;
    VExit(c, z, b.k, b.x, d, back);
    VChoice(c, p, z + b.x - p, 0, back);
    VUnder(c, p + 1, b.b, z + b.x, back);
    TooFarOver(back, VEntry(false, z + b.x), SaveDepth(b.b));
  }

  lemma {:induction false} VAnd(c: Code, p: int, z: int, b: Block, d: nat, back: seq<VEntry>)
    requires b.And? && ItemAt(c, p, z, b) && Shape(b) && Valid(b, d) && Backed(b, false) && !At(c, z).IBack?
    requires Above(c, back, z + ItemSlide(b.k, d)) && VSlides(c, z, z + ItemSlide(b.k, d))
    ensures Verdict(c, VRun2(c, p, back), true, ItemDepth(b), z + ItemSlide(b.k, d), back)
    decreases b, 2
  {
    hide VRun, VRun2, Flat, ItemWords;
    VExit(c, z, b.k, b.x, d, back);
    VExit(c, z, b.k, 0, d, back);
    VChoice(c, p, z - 1 - p, 0, back);
    VUnder(c, p + 1, b.b, z - 1, back);
    VBackCommit(c, z - 2, 2 + b.x, VEntry(false, z - 1), back);
    VAndFail(c, z - 1, back);
  }

  lemma VBackCommit(c: Code, p: int, offset: int, e: VEntry, back: seq<VEntry>)
    requires p >= 0 && (At(c, p) == IBackCommit(offset) || At(c, p) == ICommit(offset)) && offset > 0
             && p + offset <= |c|
    ensures VRun2(c, p, back + [e]) == VRun2(c, p + offset, back)
  {
    assert (back + [e])[..|back|] == back;
    assert VRun(c, p, back + [e]) == VGo(c, p, p + offset, back);
  }

  /** The failing end of an and-predicate is passed over. */
  lemma VAndFail(c: Code, p: int, back: seq<VEntry>)
    requires p > 0 && At(c, p) == IFail && c[p - 1].IBackCommit?
    ensures VRun2(c, p, back) == VRun2(c, p + 1, back)
  {
    assert VRun(c, p, back) == VGo(c, p, p + 1, back);
  }

  lemma {:induction false} VNot(c: Code, p: int, z: int, b: Block, d: nat, back: seq<VEntry>)
    requires b.Not? && ItemAt(c, p, z, b) && Shape(b) && Valid(b, d) && Backed(b, false) && !At(c, z).IBack?
    requires Above(c, back, z + ItemSlide(b.k, d)) && VSlides(c, z, z + ItemSlide(b.k, d))
    ensures Verdict(c, VRun2(c, p, back), true, ItemDepth(b), z + ItemSlide(b.k, d), back)
    decreases b, 2
  {
    hide VRun, VRun2, Flat, ItemWords;
    VExit(c, z, b.k, b.x, d, back);
    if b.ot.Some? {
      VTest(c, p, b.ot.value, z + b.x - p, back);
    } else {
      VChoice(c, p, z + b.x - p, 0, back);
      VUnder(c, p + 1, b.b, z + b.x, back);
      VFailTwice(c, z - 1, z + b.x, back);
    }
  }

  lemma VFailTwice(c: Code, p: int, out: int, back: seq<VEntry>)
    requires 0 <= p < out <= |c| && At(c, p) == IFailTwice
    ensures VRun2(c, p, back + [VEntry(false, out)]) == VRun2(c, out, back)
  {
    var over := back + [VEntry(false, out)];
    assert over[..|over| - 1] == back;
    assert VRun(c, p, over) == VFail(c, p, over);
    assert VFail(c, p, over) == VGo(c, p, out, back);
  }

  lemma {:induction false} VUnion(c: Code, p: int, z: int, b: Block, d: nat, back: seq<VEntry>)
    requires b.Union? && ItemAt(c, p, z, b) && Shape(b) && Valid(b, d) && Backed(b, false) && !At(c, z).IBack?
    requires Above(c, back, z + ItemSlide(b.k, d)) && VSlides(c, z, z + ItemSlide(b.k, d))
    ensures Verdict(c, VRun2(c, p, back), ItemNullable(b), ItemDepth(b), z + ItemSlide(b.k, d), back)
    decreases b, 2
  {
    hide VRun, VRun2, Flat, ItemWords, MoreWords, VSlides, Above, MorePlaced, Shape, Valid, Backed;
    var pe := z - |Flat(b.els)|;
    var out := pe + Exit(b.els, b.x);
    UnionFacts(c, p, z, b, d);
    VAlternative(c, pe, z, b.els, b.x, b.k, d, back);
    if b.ot.Some? {
      VTest(c, p, b.ot.value, out - p, back);
    } else {
      VUnionBody(c, p, z, b, d, back);
    }
  }

  lemma UnionFacts(c: Code, p: int, z: int, b: Block, d: nat)
    requires b.Union? && ItemAt(c, p, z, b) && Shape(b) && Valid(b, d) && Backed(b, false)
    ensures Shape(b.els) && Valid(b.els, ItemSlide(b.k, d)) && Backed(b.els, false) && GoodExit(b.x, b.k, d)
    ensures var pe := z - |Flat(b.els)|; Sub(c, pe, Flat(b.els)) && Clear(c, pe) && p >= 0 && pe > p
  {
    hide Flat;
  }

  lemma {:induction false} VUnionBody(c: Code, p: int, z: int, b: Block, d: nat, back: seq<VEntry>)
    requires b.Union? && b.ot.None? && ItemAt(c, p, z, b) && Shape(b) && Valid(b, d) && Backed(b, false)
             && !At(c, z).IBack?
    requires Above(c, back, z + ItemSlide(b.k, d)) && VSlides(c, z, z + ItemSlide(b.k, d))
    requires z - |Flat(b.els)| + Exit(b.els, b.x) <= |c|
    ensures var out := z - |Flat(b.els)| + Exit(b.els, b.x); var r := VRun2(c, p, back);
            r == if TooFar(back, UnionDepth(b)) then TooDeep
                 else if BodyNullable(b) then VRun2(c, z + ItemSlide(b.k, d), back) else VRun2(c, out, back)
    decreases b, 1, b.m + 1
  {
    hide VRun, VRun2, Flat, ItemWords, MoreWords, VSlides;
    var out := z - |Flat(b.els)| + Exit(b.els, b.x);
    VChoice(c, p, out - p, b.aux, back);
    MoreWord(c, z, b, b.m, p + 1 + |Flat(b.first)|);
    VUnder(c, p + 1, b.first, out, back);
    if Nullable(b.first) { VMore(c, z, b, b.m, p + 1 + |Flat(b.first)|, d, back); }
  }

  /** The copies of a union's first alternative that are left, under its choice. */
  lemma {:induction false} VMore(c: Code, z: int, b: Block, m: nat, q: int, d: nat, back: seq<VEntry>)
    requires b.Union? && MorePlaced(c, z, Flat(b.more), m, Flat(b.els), b.x, q)
    requires Shape(b) && Valid(b, d) && Backed(b, false) && !At(c, z).IBack?
    requires Above(c, back, z + ItemSlide(b.k, d)) && VSlides(c, z, z + ItemSlide(b.k, d))
    requires z - |Flat(b.els)| + Exit(b.els, b.x) <= |c|
    ensures var out := z - |Flat(b.els)| + Exit(b.els, b.x); var r := VRun2(c, q, back + [VEntry(false, out)]);
            r == if m > 0 && TooFar(back + [VEntry(false, out)], SaveDepth(b.more)) then TooDeep
                 else if m == 0 || Nullable(b.more) then VRun2(c, z + ItemSlide(b.k, d), back)
                 else VRun2(c, out, back)
    decreases b, 1, m
  {
    hide *;
    UnionMore(b, d);
    var out := z - |Flat(b.els)| + Exit(b.els, b.x);
    if m == 0 {
      MoreEnd(c, z, b, q);
      VExit(c, z, b.k, b.x, d, back);
      VBackCommit(c, q, 1 + |Flat(b.els)| + b.x, VEntry(false, out), back);
    } else {
      MoreHere(c, z, b, m, q, d, back);
      VPartial(c, q, back + [VEntry(false, out)]);
      MoreWord(c, z, b, m - 1, q + 1 + |Flat(b.more)|);
      VUnder(c, q + 1, b.more, out, back);
      VMore(c, z, b, m - 1, q + 1 + |Flat(b.more)|, d, back);
    }
  }

  lemma MoreWord(c: Code, z: int, b: Block, m: nat, q: int)
    requires b.Union? && MorePlaced(c, z, Flat(b.more), m, Flat(b.els), b.x, q)
    ensures !At(c, q).IBack?
  {
    hide Flat;
    if m > 0 { MoreLayout(c, z, Flat(b.more), m, Flat(b.els), b.x, q); }
  }

  lemma MoreEnd(c: Code, z: int, b: Block, q: int)
    requires b.Union? && MorePlaced(c, z, Flat(b.more), 0, Flat(b.els), b.x, q)
    ensures q >= 0 && At(c, q) == ICommit(1 + |Flat(b.els)| + b.x) && q + 1 + |Flat(b.els)| == z
  {
    hide Flat;
  }

  lemma MoreHere(c: Code, z: int, b: Block, m: nat, q: int, d: nat, back: seq<VEntry>)
    requires b.Union? && MorePlaced(c, z, Flat(b.more), m, Flat(b.els), b.x, q) && m > 0
    requires Above(c, back, z + ItemSlide(b.k, d))
    ensures At(c, q) == IPartialCommit(1) && q >= 0 && Sub(c, q + 1, Flat(b.more)) && Clear(c, q + 1)
    ensures MorePlaced(c, z, Flat(b.more), m - 1, Flat(b.els), b.x, q + 1 + |Flat(b.more)|)
    ensures q + 1 + |Flat(b.more)| < z - |Flat(b.els)| && Above(c, back, q + 1 + |Flat(b.more)|)
  {
    hide Flat;
    MoreLayout(c, z, Flat(b.more), m, Flat(b.els), b.x, q);
  }

  lemma UnionMore(b: Block, d: nat)
    requires b.Union? && Shape(b) && Valid(b, d) && Backed(b, false)
    ensures Shape(b.more) && Valid(b.more, 0) && Backed(b.more, false) && GoodExit(b.x, b.k, d)
  {
  }

  lemma VPartial(c: Code, q: int, back: seq<VEntry>)
    requires q >= 0 && At(c, q) == IPartialCommit(1) && back != []
    ensures VRun2(c, q, back) == VRun2(c, q + 1, back)
  {
    assert VRun(c, q, back) == VGo(c, q, q + 1, back);
  }

  // ---- the verdict on a whole pattern ----

  /**
    verify on compiled code: it gives up exactly when it saves more than 200 entries on its way, and
    otherwise gives result 1 exactly when the block is not nullable; no assertion of verify ever fails.
   */
  lemma VerifySound(b: Block)
    requires Good(b)
    ensures VRun(Flat(b), 0, []) == if SaveDepth(b) > 200 then TooDeep else if Nullable(b) then Accepts else Consumes
  {
    hide Flat, Good, Backed, Shape, Valid, Balanced, Spine;
    var c := Flat(b);
    GoodOf(b);
    assert VSlides(c, |c|, |c|);
    VBlock(c, 0, b, 0, []);
  }

  // ---- the code of checked blocks ----

  /** A check of its own stands in front of word j. */
  predicate BehindCheck(c: Code, j: int)
    requires 0 <= j <= |c|
  {
    || (j >= 1 && IsFixCheck(c[j - 1]) && Size(c[j - 1]) == 1)
    || (j >= CHARSET_INST_SIZE && IsFixCheck(c[j - CHARSET_INST_SIZE])
      && c[j - CHARSET_INST_SIZE..j] == Words(c[j - CHARSET_INST_SIZE]))
  }

  /** Every IBack stands directly behind its own check, as the look-ahead of verify expects. */
  predicate NoStrayBack(c: Code) {
    forall j :: 0 <= j < |c| && c[j].IBack? ==> BehindCheck(c, j)
  }

  lemma LastPad(i: Cell)
    requires Size(i) == CHARSET_INST_SIZE
    ensures Words(i)[CHARSET_INST_SIZE - 1] == CharsetWord
  {
  }

  /** A word in front of a step back is the last one of a check. */
  lemma NotBehind(c: Code, j: int)
    requires 1 <= j < |c| && NoStrayBack(c) && c[j - 1] != CharsetWord && !(IsFixCheck(c[j - 1]) && Size(c[j - 1]) == 1)
    ensures !c[j].IBack?
  {
    if j >= CHARSET_INST_SIZE && Size(c[j - CHARSET_INST_SIZE]) == CHARSET_INST_SIZE {
      LastPad(c[j - CHARSET_INST_SIZE]);
      assert c[j - CHARSET_INST_SIZE..j][CHARSET_INST_SIZE - 1] == c[j - 1];
    }
  }

  /** The charset words of an instruction that is not a check of its own. */
  lemma NotBehindWords(c: Code, p: int, i: Cell)
    requires Sub(c, p, Words(i)) && p + Size(i) < |c| && NoStrayBack(c) && !IsFixCheck(i) && i != CharsetWord
    ensures !c[p + Size(i)].IBack?
  {
    var j := p + Size(i);
    SubAt(c, p, Words(i), 0);
    if Size(i) == 1 {
      NotBehind(c, j);
    } else {
      SubAt(c, p, Words(i), Size(i) - 1);
    }
  }

  lemma {:induction false} NoFailChecked(b: Block)
    requires NoFail(b)
    ensures Checked(b)
  {
    if !b.End? { NoFailChecked(b.k); }
  }

  /** A block whose code has no stray step back is a checked one. */
  lemma {:induction false} CheckedOf(c: Code, p: int, b: Block, fed: bool)
    requires Sub(c, p, Flat(b)) && Shape(b) && Backed(b, fed) && NoStrayBack(c) && !StartsWithBack(b)
    ensures Checked(b)
    decreases b, 1
  {
    hide Flat, ItemWords, NoStrayBack, ItemAt;
    if b.Prim? {
      CheckedPrim(c, p, b, fed);
    } else if !b.End? {
      FlatSplit(c, p, b);
      CheckedOf(c, p + |ItemWords(b)|, b.k, false);
      Layout(c, p, b);
      CheckedItem(c, p, p + |ItemWords(b)|, b, fed);
    }
  }

  lemma {:induction false} CheckedPrim(c: Code, p: int, b: Block, fed: bool)
    requires b.Prim? && Sub(c, p, Flat(b)) && Shape(b) && Backed(b, fed) && NoStrayBack(c) && !StartsWithBack(b)
    ensures Checked(b)
    decreases b, 0
  {
    hide Flat, ItemWords, NoStrayBack;
    FlatSplit(c, p, b);
    PrimItemWords(b);
    var z := p + |ItemWords(b)|;
    if !b.k.End? {
      ItemHead(b.k);
      FlatEmpty(b.k);
      SubAt(c, z, Flat(b.k), 0);
    }
    if b.i.ICheck? && StartsWithBack(b.k) {
      FlatSplit(c, z, b.k);
      CheckedOf(c, z + |ItemWords(b.k)|, b.k.k, false);
    } else {
      if !b.i.ICheck? && StartsWithBack(b.k) { NotBehindWords(c, p, b.i); }
      CheckedOf(c, z, b.k, b.i.ICheck? || (b.i.ICapture? && fed));
    }
  }

  /** A test is not a check of its own. */
  lemma TestNotBehind(c: Code, p: int, b: Block)
    requires b.TestJmp? && Sub(c, p, ItemWords(b)) && Shape(b.b1) && NoStrayBack(c)
    ensures !StartsWithBack(b.b1)
  {
    hide Flat;
    var w := Words(ICheck(b.t, CheckSize(b.t) + |Flat(b.b1)| + 1 + Exit(b.b2, b.x)));
    Sub4(c, p, w, Flat(b.b1), [IJmp(1 + |Flat(b.b2)| + b.x)], Flat(b.b2));
    if StartsWithBack(b.b1) {
      ItemHead(b.b1);
      FlatEmpty(b.b1);
      SubAt(c, p + |w|, Flat(b.b1), 0);
      NotBehindWords(c, p, w[0]);
    }
  }

  /** What stands under a choice does not start with a step back. */
  lemma ChoiceNotBehind(c: Code, p: int, b1: Block)
    requires 0 <= p && At(c, p).IChoice? && Sub(c, p + 1, Flat(b1)) && Shape(b1) && NoStrayBack(c)
    ensures !StartsWithBack(b1)
  {
    hide Flat;
    if StartsWithBack(b1) {
      ItemHead(b1);
      FlatEmpty(b1);
      SubAt(c, p + 1, Flat(b1), 0);
      NotBehind(c, p + 1);
    }
  }

  lemma {:induction false} CheckedItem(c: Code, p: int, z: int, b: Block, fed: bool)
    requires !b.End? && !b.Prim? && ItemAt(c, p, z, b) && Sub(c, p, ItemWords(b)) && Shape(b) && Backed(b, fed)
             && NoStrayBack(c) && Checked(b.k)
    ensures Checked(b)
    decreases b, 0, 1
  {
    hide Flat, ItemWords, NoStrayBack, Sub, At, MoreWords;
    match b
    case TestJmp(t, b1, b2, _, _) =>
      TestNotBehind(c, p, b);
      CheckedOf(c, p + CheckSize(t), b1, true);
      CheckedOf(c, z - |Flat(b2)|, b2, false);
    case Union(ot, _, first, more, m, els, _, _) =>
      ChoiceNotBehind(c, p + OtSize(ot), first);
      CheckedOf(c, p + OtSize(ot) + 1, first, ot.Some?);
      CheckedOf(c, z - |Flat(els)|, els, false);
      if m > 0 { CheckedMore(c, z, b, p + OtSize(ot) + 1 + |Flat(first)|); }
    case Not(ot, b1, _, _) =>
      ChoiceNotBehind(c, p + OtSize(ot), b1);
      CheckedOf(c, p + OtSize(ot) + 1, b1, ot.Some?);
    case NotHead(_, b1, _, _) => NoFailChecked(b1);
    case And(b1, _, _) => CheckedOf(c, p + 1, b1, false);
    case Loop(b1, _, _) => CheckedOf(c, p + 1, b1, false);
    case LoopHead(_, b1, _, _) => NoFailChecked(b1);
    case OptHead(_, b1, _, _, _) => NoFailChecked(b1);
  }

  lemma {:induction false} CheckedMore(c: Code, z: int, b: Block, q: int)
    requires b.Union? && b.m > 0 && MorePlaced(c, z, Flat(b.more), b.m, Flat(b.els), b.x, q) && Shape(b.more)
             && Backed(b.more, false) && NoStrayBack(c)
    ensures Checked(b.more)
    decreases b, 0, 0
  {
    hide Flat;
    MoreLayout(c, z, Flat(b.more), b.m, Flat(b.els), b.x, q);
    CheckedOf(c, q + 1, b.more, false);
  }
}
