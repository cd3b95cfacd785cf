/** Compiled patterns are typed, and their jumps lead forward or to the head of a loop. */
module LpegTyping {
  import opened LpegCode
  import opened LpegMachine
  import opened LpegPeg
  import opened LpegBlock
  import opened LpegExec
  import opened LpegRun
  import opened LpegBuild
  import opened LpegShape
  import opened LpegVerify
  import opened LpegTypes

  // ---- the types of a block's words ----

  /** The type of an instruction of n words. */
  function Spot(t: Ty, n: nat): (w: Typing)
    ensures |w| == n
    ensures n > 0 ==> w[0] == Some(t)
    ensures forall j :: 0 < j < n ==> w[j] == None
  {
    seq(n, j => if j == 0 then Some(t) else None)
  }

  /** The type behind the first item of b. */
  function After(b: Block, t: Ty): (u: Ty)
    requires t.opens != []
    ensures u.opens != []
  {
    if b.Prim? && b.i.ICapture? && b.i.op.OpenCap? then WithTop(t, Top(t) + 1)
    else if b.Prim? && b.i.ICapture? && b.i.op.CloseCap? && Top(t) > 0 then WithTop(t, Top(t) - 1)
    else t
  }

  /** The type behind b, in which dep captures are closed that were open before. */
  function Behind(t: Ty, dep: nat): Ty
    requires t.opens != []
  {
    if dep == 0 then t else if dep <= Top(t) then WithTop(t, Top(t) - dep) else WithTop(t, 0)
  }

  /** A choice and the test in front of it. */
  function OtTypes(ot: Option<Check>, t: Ty): (w: Typing)
    ensures |w| == OtSize(ot) + 1
  {
    (if ot.Some? then Spot(t, CheckSize(ot.value)) else []) + [Some(Ty(t.inRule, t.opens, OtStep(ot)))]
  }

  function MoreTypes(w: Typing, m: nat, t: Ty): (r: Typing)
    ensures |r| == m * (1 + |w|)
  {
    if m == 0 then [] else [Some(t)] + w + MoreTypes(w, m - 1, t)
  }

  function OptTypes(w: Typing, size: nat, n: nat, t: Ty): (r: Typing)
    ensures |r| == n * (size + |w|)
  {
    if n == 0 then [] else Spot(t, size) + w + OptTypes(w, size, n - 1, t)
  }

  function ItemTypes(b: Block, t: Ty): Typing
    requires !b.End? && t.opens != []
    decreases b, 0
  {
    match b
    case Prim(i, _) => Spot(t, Size(i))
    case TestJmp(ck, b1, b2, _, _) => Spot(t, CheckSize(ck)) + Types(b1, t) + [Some(t)] + Types(b2, t)
    case Union(ot, _, first, more, m, els, _, _) =>
      OtTypes(ot, t) + (Types(first, Push(t)) + MoreTypes(Types(more, Push(t)), m, Push(t))) + [Some(Push(t))]
        + Types(els, t)
    case Not(ot, b1, _, _) => OtTypes(ot, t) + Types(b1, Push(t)) + [Some(Push(t))]
    case NotHead(ck, b1, _, _) => Spot(t, CheckSize(ck)) + Types(b1, t) + [Some(t)]
    case And(b1, _, _) => [Some(t)] + Types(b1, Push(t)) + [Some(Push(t))] + [Some(t)]
    case Loop(b1, _, _) => [Some(t)] + Types(b1, Push(t)) + [Some(Push(t))]
    case LoopHead(ck, b1, _, _) => Spot(t, CheckSize(ck)) + Types(b1, t) + [Some(t)]
    case OptHead(ck, b1, n, _, _) => OptTypes(Types(b1, t), CheckSize(ck), n, t)
  }

  function Types(b: Block, t: Ty): Typing
    requires t.opens != []
    decreases b, 1
  {
    if b.End? then [] else ItemTypes(b, t) + Types(b.k, After(b, t))
  }

  lemma {:induction false} TypesLength(b: Block, t: Ty)
    requires t.opens != []
    ensures |Types(b, t)| == |Flat(b)|
    decreases b, 1
  {
    if !b.End? {
      ItemLength(b, t);
      TypesLength(b.k, After(b, t));
    }
  }

  lemma {:induction false} ItemLength(b: Block, t: Ty)
    requires !b.End? && t.opens != []
    ensures |ItemTypes(b, t)| == |ItemWords(b)|
    decreases b, 0
  {
    hide Flat, Types;
    match b
    case Prim(_, _) =>
    case TestJmp(_, b1, b2, _, _) => TypesLength(b1, t); TypesLength(b2, t);
    case Union(ot, _, first, more, m, els, _, _) =>
      TypesLength(first, Push(t));
      TypesLength(more, Push(t));
      TypesLength(els, t);
      MoreLength(Flat(more), m);
    case Not(_, b1, _, _) => TypesLength(b1, Push(t));
    case NotHead(_, b1, _, _) => TypesLength(b1, t);
    case And(b1, _, _) => TypesLength(b1, Push(t));
    case Loop(b1, _, _) => TypesLength(b1, Push(t));
    case LoopHead(_, b1, _, _) => TypesLength(b1, t);
    case OptHead(ck, b1, n, x, _) => TypesLength(b1, t); OptLength(ck, Flat(b1), n, x);
  }

  lemma {:induction false} MoreLength(f: Code, m: nat)
    ensures |MoreWords(f, m)| == m * (1 + |f|)
    decreases m
  {
    if m > 0 { MoreLength(f, m - 1); }
  }

  lemma {:induction false} OptLength(t: Check, f: Code, n: nat, x: nat)
    ensures |OptWords(t, f, n, x)| == n * (CheckSize(t) + |f|)
    decreases n
  {
    if n > 0 { OptLength(t, f, n - 1, x); }
  }

  // ---- types in their places ----

  /** w stands at word p of h. */
  ghost predicate In(h: Typing, p: int, w: Typing) {
    0 <= p && p + |w| <= |h| && h[p..p + |w|] == w
  }

  lemma InSplit(h: Typing, p: int, f: Typing, g: Typing)
    requires In(h, p, f + g)
    ensures In(h, p, f) && In(h, p + |f|, g)
  {
    assert h[p..p + |f + g|][..|f|] == f;
    assert h[p..p + |f + g|][|f|..] == g;
  }

  lemma In3(h: Typing, p: int, f: Typing, g: Typing, k: Typing)
    requires In(h, p, f + g + k)
    ensures In(h, p, f) && In(h, p + |f|, g) && In(h, p + |f| + |g|, k)
  {
    InSplit(h, p, f + g, k);
    InSplit(h, p, f, g);
  }

  lemma In4(h: Typing, p: int, f: Typing, g: Typing, k: Typing, l: Typing)
    requires In(h, p, f + g + k + l)
    ensures In(h, p, f) && In(h, p + |f|, g) && In(h, p + |f| + |g|, k) && In(h, p + |f| + |g| + |k|, l)
  {
    InSplit(h, p, f + g + k, l);
    In3(h, p, f, g, k);
  }

  lemma InOne(h: Typing, p: int, t: Ty)
    requires In(h, p, [Some(t)])
    ensures 0 <= p < |h| && h[p] == Some(t)
  {
    assert h[p..p + 1][0] == h[p];
  }

  lemma InSpot(h: Typing, p: int, t: Ty, n: nat)
    requires In(h, p, Spot(t, n)) && n > 0
    ensures 0 <= p && p + n <= |h| && h[p] == Some(t) && forall j :: p < j < p + n ==> h[j] == None
  {
    assert h[p..p + n][0] == h[p];
    forall j | p < j < p + n ensures h[j] == None {
      assert h[p..p + n][j - p] == h[j];
    }
  }

  /** A block that is entered at word p with type t, and the word behind it with the type it leaves. */
  lemma StartHas(h: Typing, p: int, b: Block, t: Ty, dep: nat)
    requires t.opens != [] && t.lo == 0 && In(h, p, Types(b, t)) && Has(h, p + |Types(b, t)|, Behind(t, dep))
             && Balanced(b, dep) && Shape(b)
    ensures Has(h, p, t)
  {
    if !b.End? {
      InSplit(h, p, ItemTypes(b, t), Types(b.k, After(b, t)));
      ItemStart(h, p, b, t);
    }
  }

  lemma ItemStart(h: Typing, p: int, b: Block, t: Ty)
    requires !b.End? && t.opens != [] && t.lo == 0 && In(h, p, ItemTypes(b, t)) && Shape(b)
    ensures Has(h, p, t)
  {
    hide Types;
    assert h[p..p + |ItemTypes(b, t)|][0] == h[p];
    if b.Prim? {
    } else if b.OptHead? {
      assert OptTypes(Types(b.b, t), CheckSize(b.t), b.n, t)[0] == Some(t);
    } else if b.Union? {
      assert OtTypes(b.ot, t)[0] == Some(t);
    } else if b.Not? {
      assert OtTypes(b.ot, t)[0] == Some(t);
    }
  }

  // ---- every word of a block is in order ----

  /** Jumps and tests lead forward, but for the jump that closes a loop, and stay between lo and hi. */
  ghost predicate Flows(c: Code, i: int, lo: int, hi: int)
    requires 0 <= i < |c|
  {
    match c[i]
    case ICheck(ck, offset) =>
      offset != 0 ==> 0 < offset && i + offset <= hi && (At(c, i + CheckSize(ck)).IBack? ==> At(c, i + offset).ICheck?)
    case IJmp(offset) =>
      && lo <= i + offset <= hi && offset != 0
      && (offset < 0 ==> At(c, i + offset).ICheck? && At(c, i + offset).offset > -offset)
    case IPartialCommit(offset) => offset < 0 ==> ClosesLoop(c, i)
    case _ => true
  }

  /** A partial commit that leads back closes a loop over the words of a block. */
  ghost predicate ClosesLoop(c: Code, i: int)
    requires 0 <= i < |c| && c[i].IPartialCommit?
  {
    exists body: Block :: LoopOver(c, i, body)
  }

  ghost predicate LoopOver(c: Code, i: int, body: Block)
    requires 0 <= i < |c| && c[i].IPartialCommit?
  {
    && |Flat(body)| == -c[i].offset && Sub(c, i + c[i].offset, Flat(body))
    && Shape(body) && Valid(body, 0) && Backed(body, false) && At(c, i + c[i].offset - 1).IChoice?
  }

  /** Word i is typed, or belongs to the instruction in front of it. */
  ghost predicate Fine(c: Code, h: Typing, i: int, lo: int, hi: int) {
    && |h| == |c| + 1 && 0 <= i < |c|
    && if h[i].None? then c[i] == CharsetWord
       else WordOk(c, h, i) && Flows(c, i, lo, hi) && Sub(c, i, Words(c[i])) && !c[i].IEnd?
  }

  ghost predicate AllFine(c: Code, h: Typing, p: int, z: int, lo: int, hi: int) {
    forall i :: p <= i < z ==> Fine(c, h, i, lo, hi)
  }

  lemma FineJoin(c: Code, h: Typing, p: int, q: int, z: int, lo: int, hi: int)
    requires AllFine(c, h, p, q, lo, hi) && AllFine(c, h, q, z, lo, hi)
    ensures AllFine(c, h, p, z, lo, hi)
  {
    hide Fine;
    forall i | p <= i < z ensures Fine(c, h, i, lo, hi) {
      if i < q { assert Fine(c, h, i, lo, hi); }
    }
  }

  /** One typed word. */
  lemma OneFine(c: Code, h: Typing, p: int, t: Ty, lo: int, hi: int)
    requires |h| == |c| + 1 && 0 <= p < |c| && h[p] == Some(t) && t.opens != [] && InstOk(h, p, c[p], t)
             && Flows(c, p, lo, hi) && Size(c[p]) == 1 && !c[p].IEnd?
    ensures AllFine(c, h, p, p + 1, lo, hi)
  {
    assert Words(c[p]) == [c[p]];
    assert c[p..p + 1] == [c[p]];
  }

  /** An instruction with its charset words. */
  lemma WordsFine(c: Code, h: Typing, p: int, i: Cell, t: Ty, lo: int, hi: int)
    requires |h| == |c| + 1 && Sub(c, p, Words(i)) && In(h, p, Spot(t, Size(i))) && t.opens != [] && InstOk(h, p, i, t)
    requires (i.ICheck? && i.offset != 0 ==>
             0 < i.offset && p + i.offset <= hi && (At(c, p + Size(i)).IBack? ==> At(c, p + i.offset).ICheck?))
    requires !i.IJmp? && !i.IEnd? && !i.IPartialCommit?
    ensures AllFine(c, h, p, p + Size(i), lo, hi)
  {
    hide InstOk;
    SubAt(c, p, Words(i), 0);
    InSpot(h, p, t, Size(i));
    forall j | p <= j < p + Size(i) ensures Fine(c, h, j, lo, hi) {
      if j > p { SubAt(c, p, Words(i), j - p); }
    }
  }

  /** Block b stands at word p with its types, entered with type t; jumps lead d from its end. */
  ghost predicate Here(c: Code, h: Typing, p: int, b: Block, t: Ty, d: nat, dep: nat, lo: int, hi: int) {
    && |h| == |c| + 1 && t.opens != [] && t.lo == 0 && dep <= Top(t)
    && Sub(c, p, Flat(b)) && In(h, p, Types(b, t)) && Shape(b) && Valid(b, d) && Balanced(b, dep) && Backed(b, true)
    && var z := p + |Flat(b)|;
       Has(h, z, Behind(t, dep)) && Has(h, z + d, Behind(t, dep)) && lo <= p && z + d <= hi && !At(c, z).IBack?
  }

  /** In each part of the first item captures open and close in pairs. */
  predicate InnerBalanced(b: Block) {
    match b
    case TestJmp(_, b1, b2, _, _) => Balanced(b1, 0) && Balanced(b2, 0)
    case Union(_, _, first, more, _, els, _, _) => Balanced(first, 0) && Balanced(more, 0) && Balanced(els, 0)
    case Not(_, b1, _, _) => Balanced(b1, 0)
    case NotHead(_, b1, _, _) => Balanced(b1, 0)
    case And(b1, _, _) => Balanced(b1, 0)
    case Loop(b1, _, _) => Balanced(b1, 0)
    case LoopHead(_, b1, _, _) => Balanced(b1, 0)
    case OptHead(_, b1, _, _, _) => Balanced(b1, 0)
    case _ => true
  }

  /** The same for the first item of b, which ends at word z. */
  ghost predicate ItemHere(c: Code, h: Typing, p: int, z: int, b: Block, t: Ty, d: nat, lo: int, hi: int) {
    && |h| == |c| + 1 && t.opens != [] && t.lo == 0 && !b.End? && !b.Prim?
    && Sub(c, p, ItemWords(b)) && z == p + |ItemWords(b)| && In(h, p, ItemTypes(b, t))
    && Shape(b) && Valid(b, d) && InnerBalanced(b) && Backed(b, true)
    && Has(h, z, t) && Has(h, z + ItemSlide(b.k, d), t) && lo <= p && z + ItemSlide(b.k, d) <= hi && !At(c, z).IBack?
  }

  lemma {:induction false} TypedBlock(c: Code, h: Typing, p: int, b: Block, t: Ty, d: nat, dep: nat, lo: int, hi: int)
    requires Here(c, h, p, b, t, d, dep, lo, hi)
    ensures AllFine(c, h, p, p + |Flat(b)|, lo, hi)
    decreases b, 3
  {
    hide *;
    if b.End? {
      NoWords();
      NoneFine(c, h, p, lo, hi);
    } else {
      var z := p + |ItemWords(b)|;
      SplitHere(c, h, p, b, t, d, dep, lo, hi);
      if b.Prim? {
        PrimFine(c, h, p, b, t, d, dep, lo, hi);
        TypedBlock(c, h, z, b.k, After(b, t), d, DepAfter(b, dep), lo, hi);
      } else {
        TypedItem(c, h, p, z, b, t, d, lo, hi);
        TypedBlock(c, h, z, b.k, t, d, dep, lo, hi);
      }
      FineJoin(c, h, p, z, p + |Flat(b)|, lo, hi);
    }
  }

  lemma NoneFine(c: Code, h: Typing, p: int, lo: int, hi: int)
    ensures AllFine(c, h, p, p + |Flat(End)|, lo, hi)
  {
  }

  function DepAfter(b: Block, dep: nat): nat {
    if b.Prim? && b.i.ICapture? && b.i.op.OpenCap? then dep + 1
    else if b.Prim? && b.i.ICapture? && b.i.op.CloseCap? && dep > 0 then dep - 1
    else dep
  }

  lemma SameTop(t: Ty)
    requires t.opens != [] && t.lo == 0
    ensures WithTop(t, Top(t)) == t
  {
    assert t.opens[..|t.opens| - 1] + [t.opens[|t.opens| - 1]] == t.opens;
  }

  /** What closes in the rest of a block. */
  lemma BehindAfter(b: Block, t: Ty, dep: nat)
    requires !b.End? && t.opens != [] && t.lo == 0 && dep <= Top(t) && Balanced(b, dep)
    ensures Balanced(b.k, DepAfter(b, dep)) && After(b, t).lo == 0 && DepAfter(b, dep) <= Top(After(b, t))
    ensures Behind(After(b, t), DepAfter(b, dep)) == Behind(t, dep)
  {
    SameTop(t);
    SameTop(After(b, t));
    var u := After(b, t);
    if b.Prim? && b.i.ICapture? && (b.i.op.OpenCap? || b.i.op.CloseCap?) {
      assert u.opens[..|u.opens| - 1] == t.opens[..|t.opens| - 1];
    }
  }

  /** What Here says, item by item. */
  lemma OpenHere(c: Code, h: Typing, p: int, b: Block, t: Ty, d: nat, dep: nat, lo: int, hi: int)
    requires Here(c, h, p, b, t, d, dep, lo, hi)
    ensures |h| == |c| + 1 && t.opens != [] && t.lo == 0 && dep <= Top(t)
    ensures Sub(c, p, Flat(b)) && In(h, p, Types(b, t)) && Shape(b) && Valid(b, d) && Balanced(b, dep)
            && Backed(b, true)
    ensures Has(h, p + |Flat(b)|, Behind(t, dep)) && Has(h, p + |Flat(b)| + d, Behind(t, dep))
    ensures lo <= p && p + |Flat(b)| + d <= hi && !At(c, p + |Flat(b)|).IBack?
  {
    hide Flat, Types, Shape, Valid, Balanced, Backed;
  }

  lemma MakeHere(c: Code, h: Typing, p: int, b: Block, t: Ty, d: nat, dep: nat, lo: int, hi: int)
    requires |h| == |c| + 1 && t.opens != [] && t.lo == 0 && dep <= Top(t)
    requires Sub(c, p, Flat(b)) && In(h, p, Types(b, t)) && Shape(b) && Valid(b, d) && Balanced(b, dep)
             && Backed(b, true)
    requires Has(h, p + |Flat(b)|, Behind(t, dep)) && Has(h, p + |Flat(b)| + d, Behind(t, dep))
    requires lo <= p && p + |Flat(b)| + d <= hi && !At(c, p + |Flat(b)|).IBack?
    ensures Here(c, h, p, b, t, d, dep, lo, hi)
  {
    hide Flat, Types, Shape, Valid, Balanced, Backed;
  }

  lemma SplitHere(c: Code, h: Typing, p: int, b: Block, t: Ty, d: nat, dep: nat, lo: int, hi: int)
    requires Here(c, h, p, b, t, d, dep, lo, hi) && !b.End?
    ensures t.opens != []
    ensures var z := p + |ItemWords(b)|;
            && |Flat(b)| == |ItemWords(b)| + |Flat(b.k)|
            && (if b.Prim? then Here(c, h, z, b.k, After(b, t), d, DepAfter(b, dep), lo, hi)
                else Here(c, h, z, b.k, t, d, dep, lo, hi) && ItemHere(c, h, p, z, b, t, d, lo, hi))
  {
    hide *;
    OpenHere(c, h, p, b, t, d, dep, lo, hi);
    var z := p + |ItemWords(b)|;
    FlatSplit(c, p, b);
    TypesParts(b, t);
    InSplit(h, p, ItemTypes(b, t), Types(b.k, After(b, t)));
    ItemLength(b, t);
    TypesLength(b.k, After(b, t));
    BehindAfter(b, t, dep);
    BackedParts(b);
    KeepsParts(b, d);
    MakeHere(c, h, z, b.k, After(b, t), d, DepAfter(b, dep), lo, hi);
    if !b.Prim? {
      SameAfter(b, t, dep);
      NextWord(c, z, b.k);
      KFed(b);
      StartHas(h, z, b.k, t, dep);
      ItemBalanced(b, dep);
      SlideHas(h, z, b.k, t, d, dep, hi);
      MakeItem(c, h, p, z, b, t, d, lo, hi);
    }
  }

  lemma SameAfter(b: Block, t: Ty, dep: nat)
    requires !b.End? && !b.Prim? && t.opens != []
    ensures After(b, t) == t && DepAfter(b, dep) == dep
  {
  }

  lemma SlideHas(h: Typing, z: int, k: Block, t: Ty, d: nat, dep: nat, hi: int)
    requires t.opens != [] && Has(h, z, t) && Has(h, z + |Flat(k)| + d, Behind(t, dep)) && z + |Flat(k)| + d <= hi
             && Balanced(k, dep)
    ensures Has(h, z + ItemSlide(k, d), t) && z + ItemSlide(k, d) <= hi
  {
    hide Has;
    if k.End? { NoWords(); }
  }

  lemma MakeItem(c: Code, h: Typing, p: int, z: int, b: Block, t: Ty, d: nat, lo: int, hi: int)
    requires |h| == |c| + 1 && t.opens != [] && t.lo == 0 && !b.End? && !b.Prim?
    requires Sub(c, p, ItemWords(b)) && z == p + |ItemWords(b)| && In(h, p, ItemTypes(b, t))
    requires Shape(b) && Valid(b, d) && InnerBalanced(b) && Backed(b, true)
    requires Has(h, z, t) && Has(h, z + ItemSlide(b.k, d), t) && lo <= p && z + ItemSlide(b.k, d) <= hi
             && !At(c, z).IBack?
    ensures ItemHere(c, h, p, z, b, t, d, lo, hi)
  {
    hide ItemWords, ItemTypes, Shape, Valid, Balanced, Backed, InnerBalanced;
  }

  lemma KFed(b: Block)
    requires !b.End? && !b.Prim? && Backed(b, true)
    ensures Backed(b.k, false)
  {
  }

  lemma ItemBalanced(b: Block, dep: nat)
    requires !b.End? && !b.Prim? && Balanced(b, dep)
    ensures Balanced(b.k, dep) && InnerBalanced(b)
  {
  }

  lemma TypesParts(b: Block, t: Ty)
    requires !b.End? && t.opens != []
    ensures Types(b, t) == ItemTypes(b, t) + Types(b.k, After(b, t))
  {
    hide ItemTypes;
  }

  lemma KeepsParts(b: Block, d: nat)
    requires !b.End? && Shape(b) && Valid(b, d)
    ensures Shape(b.k) && Valid(b.k, d)
  {
  }

  lemma PrimFine(c: Code, h: Typing, p: int, b: Block, t: Ty, d: nat, dep: nat, lo: int, hi: int)
    requires b.Prim? && Here(c, h, p, b, t, d, dep, lo, hi)
    requires Here(c, h, p + |ItemWords(b)|, b.k, After(b, t), d, DepAfter(b, dep), lo, hi)
    ensures AllFine(c, h, p, p + |ItemWords(b)|, lo, hi)
  {
    hide Flat, Types, Valid, Backed;
    FlatSplit(c, p, b);
    TypesParts(b, t);
    InSplit(h, p, ItemTypes(b, t), Types(b.k, After(b, t)));
    TypesLength(b.k, After(b, t));
    StartHas(h, p + |ItemWords(b)|, b.k, After(b, t), DepAfter(b, dep));
    WordsFine(c, h, p, b.i, t, lo, hi);
  }

  lemma {:induction false} TypedItem(c: Code, h: Typing, p: int, z: int, b: Block, t: Ty, d: nat, lo: int, hi: int)
    requires ItemHere(c, h, p, z, b, t, d, lo, hi)
    ensures AllFine(c, h, p, z, lo, hi)
    decreases b, 2
  {
    hide *;
    NotPrim(c, h, p, z, b, t, d, lo, hi);
    match b
    case TestJmp(_, _, _, _, _) => TypedTestJmp(c, h, p, z, b, t, d, lo, hi);
    case Union(_, _, _, _, _, _, _, _) => TypedUnion(c, h, p, z, b, t, d, lo, hi);
    case Not(_, _, _, _) => TypedNot(c, h, p, z, b, t, d, lo, hi);
    case NotHead(_, _, _, _) => TypedNotHead(c, h, p, z, b, t, d, lo, hi);
    case And(_, _, _) => TypedAnd(c, h, p, z, b, t, d, lo, hi);
    case Loop(_, _, _) => TypedLoop(c, h, p, z, b, t, d, lo, hi);
    case LoopHead(_, _, _, _) => TypedLoopHead(c, h, p, z, b, t, d, lo, hi);
    case OptHead(_, _, _, _, _) => TypedOptHead(c, h, p, z, b, t, d, lo, hi);
  }

  lemma NotPrim(c: Code, h: Typing, p: int, z: int, b: Block, t: Ty, d: nat, lo: int, hi: int)
    requires ItemHere(c, h, p, z, b, t, d, lo, hi)
    ensures !b.End? && !b.Prim?
  {
  }

  /** An exit of the item leads to a word that is entered as the end of the item is. */
  lemma ExitHas(h: Typing, z: int, k: Block, x: nat, d: nat, t: Ty, hi: int)
    requires Has(h, z, t) && Has(h, z + ItemSlide(k, d), t) && GoodExit(x, k, d) && z + ItemSlide(k, d) <= hi
    ensures Has(h, z + x, t) && z + x <= hi
  {
  }

  /** A part of an item, between words of known types. */
  lemma PartHere(c: Code, h: Typing, p: int, b1: Block, t: Ty, d: nat, lo: int, hi: int)
    requires |h| == |c| + 1 && t.opens != [] && t.lo == 0 && lo <= p && p + |Flat(b1)| + d <= hi
    requires Sub(c, p, Flat(b1)) && In(h, p, Types(b1, t)) && Shape(b1) && Valid(b1, d) && Balanced(b1, 0)
             && Backed(b1, true)
    requires Has(h, p + |Flat(b1)|, t) && Has(h, p + |Flat(b1)| + d, t) && !At(c, p + |Flat(b1)|).IBack?
    ensures Here(c, h, p, b1, t, d, 0, lo, hi) && Has(h, p, t)
  {
    hide Flat, Types, Shape, Valid, Balanced, Backed;
    TypesLength(b1, t);
    StartHas(h, p, b1, t, 0);
  }

  // ---- single words ----

  lemma TestFine(c: Code, h: Typing, p: int, ck: Check, out: int, t: Ty, lo: int, hi: int)
    requires |h| == |c| + 1 && t.opens != [] && Sub(c, p, Words(ICheck(ck, out - p)))
             && In(h, p, Spot(t, CheckSize(ck)))
    requires Has(h, p + CheckSize(ck), t) && Has(h, out, t) && p < out <= hi
    requires At(c, p + CheckSize(ck)).IBack? ==> At(c, out).ICheck?
    ensures AllFine(c, h, p, p + CheckSize(ck), lo, hi)
  {
    WordsFine(c, h, p, ICheck(ck, out - p), t, lo, hi);
  }

  lemma JumpFine(c: Code, h: Typing, p: int, out: int, t: Ty, lo: int, hi: int)
    requires |h| == |c| + 1 && t.opens != [] && 0 <= p < |c| && c[p] == IJmp(out - p) && h[p] == Some(t)
    requires Has(h, out, t) && lo <= p < out <= hi
    ensures AllFine(c, h, p, p + 1, lo, hi)
  {
    OneFine(c, h, p, t, lo, hi);
  }

  lemma CommitFine(c: Code, h: Typing, p: int, out: int, t: Ty, lo: int, hi: int)
    requires |h| == |c| + 1 && t.opens != [] && 0 <= p < |c| && c[p] == ICommit(out - p) && h[p] == Some(Push(t))
             && Has(h, out, t)
    ensures AllFine(c, h, p, p + 1, lo, hi)
  {
    PushOk(t);
    OneFine(c, h, p, Push(t), lo, hi);
  }

  // ---- test L1; b1; jump L2; L1: b2; L2: ----

  lemma SplitTestJmp(c: Code, h: Typing, p: int, z: int, b: Block, t: Ty, d: nat, lo: int, hi: int)
    requires b.TestJmp? && ItemHere(c, h, p, z, b, t, d, lo, hi)
    ensures |h| == |c| + 1 && t.opens != [] && t.lo == 0 && lo <= p && z + ItemSlide(b.k, d) <= hi
    ensures var sz := CheckSize(b.t); var q := p + sz + |Flat(b.b1)|;
            && Sub(c, p, Words(ICheck(b.t, q + 1 + Exit(b.b2, b.x) - p))) && Sub(c, p + sz, Flat(b.b1))
              && Sub(c, q + 1, Flat(b.b2))
            && 0 <= p < p + sz <= q < |c| && c[q] == IJmp(1 + |Flat(b.b2)| + b.x) && q + 1 + |Flat(b.b2)| == z
            && In(h, p, Spot(t, sz)) && In(h, p + sz, Types(b.b1, t)) && h[q] == Some(t) && Has(h, q, t)
              && In(h, q + 1, Types(b.b2, t))
            && !At(c, q).IBack? && !At(c, z).IBack?
  {
    hide Flat, Types;
    TypesLength(b.b1, t);
    TypesLength(b.b2, t);
    In4(h, p, Spot(t, CheckSize(b.t)), Types(b.b1, t), [Some(t)], Types(b.b2, t));
    InOne(h, p + CheckSize(b.t) + |Types(b.b1, t)|, t);
    var w := Words(ICheck(b.t, CheckSize(b.t) + |Flat(b.b1)| + 1 + Exit(b.b2, b.x)));
    Sub4(c, p, w, Flat(b.b1), [IJmp(1 + |Flat(b.b2)| + b.x)], Flat(b.b2));
    Sub1(c, p + |w| + |Flat(b.b1)|, IJmp(1 + |Flat(b.b2)| + b.x));
  }

  lemma TestJmpShape(c: Code, h: Typing, p: int, z: int, b: Block, t: Ty, d: nat, lo: int, hi: int)
    requires b.TestJmp? && ItemHere(c, h, p, z, b, t, d, lo, hi)
    ensures Shape(b.b1) && Shape(b.b2) && Valid(b.b1, 1 + |Flat(b.b2)| + b.x) && Valid(b.b2, ItemSlide(b.k, d))
            && Balanced(b.b1, 0) && Balanced(b.b2, 0)
    ensures Backed(b.b1, true) && Backed(b.b2, true) && (StartsWithBack(b.b1) ==> StartsWithTest(b.b2))
    ensures b.b2.End? ==> Flat(b.b2) == []
    ensures Has(h, z, t) && Has(h, z + ItemSlide(b.k, d), t) && Has(h, z + b.x, t) && z + b.x <= hi
            && (b.b2.End? ==> !StartsWithBack(b.b1))
  {
    hide Flat, Types;
    BackedParts(b);
    ExitHas(h, z, b.k, b.x, d, t, hi);
    if b.b2.End? { NoWords(); }
  }

  lemma ExitIs(b: Block, x: nat)
    ensures Exit(b, x) == if b.End? then x else 0
  {
  }

  lemma {:induction false} TypedTestJmp(c: Code, h: Typing, p: int, z: int, b: Block, t: Ty, d: nat, lo: int, hi: int)
    requires b.TestJmp? && ItemHere(c, h, p, z, b, t, d, lo, hi)
    ensures AllFine(c, h, p, z, lo, hi)
    decreases b, 1
  {
    hide *;
    SplitTestJmp(c, h, p, z, b, t, d, lo, hi);
    TestJmpShape(c, h, p, z, b, t, d, lo, hi);
    ExitIs(b.b2, b.x);
    var f2, sz := Flat(b.b2), CheckSize(b.t);
    var p1 := p + sz;
    var q := p1 + |Flat(b.b1)|;
    PartHere(c, h, p1, b.b1, t, 1 + |f2| + b.x, lo, hi);
    PartHere(c, h, q + 1, b.b2, t, ItemSlide(b.k, d), lo, hi);
    TypedBlock(c, h, p1, b.b1, t, 1 + |f2| + b.x, 0, lo, hi);
    TypedBlock(c, h, q + 1, b.b2, t, ItemSlide(b.k, d), 0, lo, hi);
    NextWord(c, p1, b.b1);
    if StartsWithBack(b.b1) { TestFirst(c, q + 1, b.b2); }
    TestFine(c, h, p, b.t, q + 1 + Exit(b.b2, b.x), t, lo, hi);
    JumpFine(c, h, q, z + b.x, t, lo, hi);
    FineJoin(c, h, p, p1, q, lo, hi);
    FineJoin(c, h, p, q, q + 1, lo, hi);
    FineJoin(c, h, p, q + 1, z, lo, hi);
  }

  lemma TestFirst(c: Code, p: int, b: Block)
    requires Sub(c, p, Flat(b)) && Shape(b) && StartsWithTest(b)
    ensures At(c, p).ICheck? && !b.End?
  {
    hide Flat;
    ItemHead(b);
    FlatEmpty(b);
    SubAt(c, p, Flat(b), 0);
    TestHead(b);
  }

  lemma TestHead(b: Block)
    requires Shape(b) && StartsWithTest(b)
    ensures |ItemWords(b)| > 0 && ItemWords(b)[0].ICheck?
  {
    hide Flat;
  }

  // ---- [test L1;] choice L1 ----

  lemma OtFine(c: Code, h: Typing, p: int, ot: Option<Check>, aux: nat, out: int, t: Ty, lo: int, hi: int)
    requires |h| == |c| + 1 && t.opens != [] && t.lo == 0 && aux <= OtStep(ot)
    requires Sub(c, p, OtChoice(ot, aux, out - p - OtSize(ot))) && In(h, p, OtTypes(ot, t))
    requires Has(h, p + OtSize(ot) + 1, Push(t)) && Has(h, out, t) && p + OtSize(ot) < out <= hi
    ensures AllFine(c, h, p, p + OtSize(ot) + 1, lo, hi)
  {
    hide AllFine;
    var p0 := p + OtSize(ot);
    var ch := IChoice(out - p0, aux);
    var w := OtWords(ot, out - p);
    var u := Ty(t.inRule, t.opens, OtStep(ot));
    SubSplit(c, p, w, [ch]);
    Sub1(c, p + |w|, ch);
    var sp := if ot.Some? then Spot(t, CheckSize(ot.value)) else [];
    InSplit(h, p, sp, [Some(u)]);
    InOne(h, p + |sp|, u);
    OneFine(c, h, p0, u, lo, hi);
    if ot.Some? {
      WordsFine(c, h, p, ICheck(ot.value, out - p), t, lo, hi);
      FineJoin(c, h, p, p0, p0 + 1, lo, hi);
    }
  }

  lemma PushOk(t: Ty)
    requires t.opens != []
    ensures var u := Push(t);
            u.opens != [] && u.lo == 0 && Top(u) == 0 && |u.opens| > 1 && Pop(u) == Ty(t.inRule, t.opens, 0)
  {
  }

  // ---- [test L1;] choice L1; b; failtwice; L1: ----

  lemma SplitNot(c: Code, h: Typing, p: int, z: int, b: Block, t: Ty, d: nat, lo: int, hi: int)
    requires b.Not? && ItemHere(c, h, p, z, b, t, d, lo, hi)
    ensures var p1 := p + OtSize(b.ot) + 1; var q := p1 + |Flat(b.b)|;
            && Sub(c, p, OtChoice(b.ot, OtStep(b.ot), z + b.x - p - OtSize(b.ot))) && In(h, p, OtTypes(b.ot, t))
            && Sub(c, p1, Flat(b.b)) && In(h, p1, Types(b.b, Push(t))) && Has(h, q, Push(t)) && h[q] == Some(Push(t))
            && 0 <= q < |c| && c[q] == IFailTwice && q + 1 == z
    ensures !At(c, p + OtSize(b.ot) + 1 + |Flat(b.b)|).IBack?
    ensures Shape(b.b) && Valid(b.b, 0) && Balanced(b.b, 0) && Backed(b.b, true) && GoodExit(b.x, b.k, d)
  {
    hide Flat, Types, Shape, Valid, Balanced, Backed, InnerBalanced, ItemWords, ItemTypes, GoodExit;
    NotPlaced(c, p, z, b);
    NotTyped(h, p, z, b, t);
    NotFits(b, d);
  }

  lemma NotPlaced(c: Code, p: int, z: int, b: Block)
    requires b.Not? && Sub(c, p, ItemWords(b)) && z == p + |ItemWords(b)|
    ensures var p1 := p + OtSize(b.ot) + 1; var q := p1 + |Flat(b.b)|;
            && Sub(c, p, OtChoice(b.ot, OtStep(b.ot), z + b.x - p - OtSize(b.ot)))
            && Sub(c, p1, Flat(b.b)) && 0 <= q < |c| && c[q] == IFailTwice && q + 1 == z
  {
    hide Flat, OtChoice;
    var offset := 1 + |Flat(b.b)| + 1 + b.x;
    OtChoiceLength(b.ot, OtStep(b.ot), offset);
    Sub3(c, p, OtChoice(b.ot, OtStep(b.ot), offset), Flat(b.b), [IFailTwice]);
    Sub1(c, z - 1, IFailTwice);
  }

  lemma NotTyped(h: Typing, p: int, z: int, b: Block, t: Ty)
    requires b.Not? && t.opens != [] && In(h, p, ItemTypes(b, t)) && z == p + OtSize(b.ot) + 1 + |Flat(b.b)| + 1
    ensures var p1 := p + OtSize(b.ot) + 1; var q := p1 + |Flat(b.b)|;
            && In(h, p, OtTypes(b.ot, t)) && In(h, p1, Types(b.b, Push(t))) && Has(h, q, Push(t)) && 0 <= q < |h|
              && h[q] == Some(Push(t))
  {
    hide Flat, Types, ItemTypes, OtTypes, Push, In;
    PushOk(t);
    NotTypesAre(b, t);
    TypesLength(b.b, Push(t));
    In3(h, p, OtTypes(b.ot, t), Types(b.b, Push(t)), [Some(Push(t))]);
    InOne(h, z - 1, Push(t));
  }

  lemma NotTypesAre(b: Block, t: Ty)
    requires b.Not? && t.opens != []
    ensures ItemTypes(b, t) == OtTypes(b.ot, t) + Types(b.b, Push(t)) + [Some(Push(t))]
  {
    hide Types, OtTypes, Push;
    PushOk(t);
  }

  lemma NotFits(b: Block, d: nat)
    requires b.Not? && Shape(b) && Valid(b, d) && InnerBalanced(b) && Backed(b, true)
    ensures Shape(b.b) && Valid(b.b, 0) && Balanced(b.b, 0) && Backed(b.b, true) && GoodExit(b.x, b.k, d)
  {
    BackedParts(b);
  }

  lemma OtChoiceLength(ot: Option<Check>, aux: nat, offset: int)
    ensures |OtChoice(ot, aux, offset)| == OtSize(ot) + 1
  {
  }

  lemma {:induction false} TypedNot(c: Code, h: Typing, p: int, z: int, b: Block, t: Ty, d: nat, lo: int, hi: int)
    requires b.Not? && ItemHere(c, h, p, z, b, t, d, lo, hi)
    ensures AllFine(c, h, p, z, lo, hi)
    decreases b, 1
  {
    hide *;
    SplitNot(c, h, p, z, b, t, d, lo, hi);
    HereFacts(c, h, p, z, b, t, d, lo, hi);
    ExitHas(h, z, b.k, b.x, d, t, hi);
    PushOk(t);
    var p1 := p + OtSize(b.ot) + 1;
    var q := p1 + |Flat(b.b)|;
    PartHere(c, h, p1, b.b, Push(t), 0, lo, hi);
    TypedBlock(c, h, p1, b.b, Push(t), 0, 0, lo, hi);
    OtFine(c, h, p, b.ot, OtStep(b.ot), z + b.x, t, lo, hi);
    NotEnd(c, h, q, Push(t), lo, hi);
    FineJoin(c, h, p, p1, q, lo, hi);
    FineJoin(c, h, p, q, z, lo, hi);
  }

  lemma HereFacts(c: Code, h: Typing, p: int, z: int, b: Block, t: Ty, d: nat, lo: int, hi: int)
    requires ItemHere(c, h, p, z, b, t, d, lo, hi)
    ensures |h| == |c| + 1 && t.opens != [] && t.lo == 0 && lo <= p && z + ItemSlide(b.k, d) <= hi
    ensures Has(h, z, t) && Has(h, z + ItemSlide(b.k, d), t) && !At(c, z).IBack?
  {
    hide Flat, Types, ItemTypes, ItemWords, Shape, Valid, Balanced, Backed, InnerBalanced;
  }

  lemma NotEnd(c: Code, h: Typing, q: int, u: Ty, lo: int, hi: int)
    requires |h| == |c| + 1 && 0 <= q < |c| && c[q] == IFailTwice && h[q] == Some(u) && |u.opens| > 1
    ensures AllFine(c, h, q, q + 1, lo, hi)
  {
    OneFine(c, h, q, u, lo, hi);
  }

  // ---- test L1; b; fail; L1: and L2: test L1; b; jump L2; L1: ----

  /** The word that ends a block behind a test. */
  function HeadEnd(b: Block): Cell
    requires b.NotHead? || b.LoopHead?
  {
    if b.NotHead? then IFail else IJmp(-(CheckSize(b.t) + |Flat(b.b)|))
  }

  lemma HeadWordsAre(b: Block)
    requires b.NotHead? || b.LoopHead?
    ensures ItemWords(b) == Words(ICheck(b.t, CheckSize(b.t) + |Flat(b.b)| + 1 + b.x)) + Flat(b.b) + [HeadEnd(b)]
  {
    hide Flat;
  }

  lemma HeadTypesAre(b: Block, t: Ty)
    requires (b.NotHead? || b.LoopHead?) && t.opens != []
    ensures ItemTypes(b, t) == Spot(t, CheckSize(b.t)) + Types(b.b, t) + [Some(t)]
  {
    hide Types, Spot;
  }

  lemma HeadShape(c: Code, h: Typing, p: int, z: int, b: Block, t: Ty, d: nat, lo: int, hi: int)
    requires (b.NotHead? || b.LoopHead?) && ItemHere(c, h, p, z, b, t, d, lo, hi)
    ensures |h| == |c| + 1 && t.opens != [] && t.lo == 0 && lo <= p && Sub(c, p, ItemWords(b))
            && z == p + |ItemWords(b)| && In(h, p, ItemTypes(b, t))
    ensures Shape(b.b) && NoFail(b.b) && Valid(b.b, 0) && Balanced(b.b, 0) && Backed(b.b, true) && !At(c, z).IBack?
    ensures Has(h, z, t) && Has(h, z + b.x, t) && z + b.x <= hi
  {
    hide Flat, Types, ItemWords, ItemTypes;
    BackedParts(b);
    ExitHas(h, z, b.k, b.x, d, t, hi);
  }

  lemma SplitHead(c: Code, h: Typing, p: int, z: int, b: Block, t: Ty)
    requires (b.NotHead? || b.LoopHead?) && |h| == |c| + 1 && t.opens != [] && t.lo == 0
    requires Sub(c, p, ItemWords(b)) && z == p + |ItemWords(b)| && In(h, p, ItemTypes(b, t)) && Shape(b.b)
             && NoFail(b.b)
    ensures var p1 := p + CheckSize(b.t); var q := p1 + |Flat(b.b)|;
            && 0 <= p < p1 <= q && Sub(c, p, Words(ICheck(b.t, z + b.x - p))) && In(h, p, Spot(t, CheckSize(b.t)))
            && Sub(c, p1, Flat(b.b)) && In(h, p1, Types(b.b, t)) && Has(h, q, t) && h[q] == Some(t)
            && 0 <= q < |c| && c[q] == HeadEnd(b) && q + 1 == z && !At(c, p1).IBack? && !At(c, q).IBack?
  {
    hide Flat, Types, ItemWords, ItemTypes, Words, Spot, Shape, NoFail;
    HeadWordsAre(b);
    HeadTypesAre(b, t);
    TypesLength(b.b, t);
    In3(h, p, Spot(t, CheckSize(b.t)), Types(b.b, t), [Some(t)]);
    InOne(h, p + CheckSize(b.t) + |Types(b.b, t)|, t);
    var w := Words(ICheck(b.t, CheckSize(b.t) + |Flat(b.b)| + 1 + b.x));
    Sub3(c, p, w, Flat(b.b), [HeadEnd(b)]);
    Sub1(c, p + |w| + |Flat(b.b)|, HeadEnd(b));
    BodyWord(c, p + CheckSize(b.t), b.b);
  }

  lemma {:induction false} TypedNotHead(c: Code, h: Typing, p: int, z: int, b: Block, t: Ty, d: nat, lo: int, hi: int)
    requires b.NotHead? && ItemHere(c, h, p, z, b, t, d, lo, hi)
    ensures AllFine(c, h, p, z, lo, hi)
    decreases b, 1
  {
    hide *;
    HeadShape(c, h, p, z, b, t, d, lo, hi);
    SplitHead(c, h, p, z, b, t);
    var p1 := p + CheckSize(b.t);
    var q := p1 + |Flat(b.b)|;
    PartHere(c, h, p1, b.b, t, 0, lo, hi);
    TypedBlock(c, h, p1, b.b, t, 0, 0, lo, hi);
    TestFine(c, h, p, b.t, z + b.x, t, lo, hi);
    NotHeadEnd(c, h, q, b, t, lo, hi);
    FineJoin(c, h, p, p1, q, lo, hi);
    FineJoin(c, h, p, q, z, lo, hi);
  }

  lemma {:induction false} TypedLoopHead(c: Code, h: Typing, p: int, z: int, b: Block, t: Ty, d: nat, lo: int, hi: int)
    requires b.LoopHead? && ItemHere(c, h, p, z, b, t, d, lo, hi)
    ensures AllFine(c, h, p, z, lo, hi)
    decreases b, 1
  {
    hide *;
    HeadShape(c, h, p, z, b, t, d, lo, hi);
    SplitHead(c, h, p, z, b, t);
    var p1 := p + CheckSize(b.t);
    var q := p1 + |Flat(b.b)|;
    PartHere(c, h, p1, b.b, t, 0, lo, hi);
    TypedBlock(c, h, p1, b.b, t, 0, 0, lo, hi);
    TestFine(c, h, p, b.t, z + b.x, t, lo, hi);
    LoopHeadEnd(c, h, p, q, z, b, t, lo, hi);
    FineJoin(c, h, p, p1, q, lo, hi);
    FineJoin(c, h, p, q, z, lo, hi);
  }

  lemma NotHeadEnd(c: Code, h: Typing, q: int, b: Block, t: Ty, lo: int, hi: int)
    requires b.NotHead? && |h| == |c| + 1 && t.opens != [] && 0 <= q < |c| && c[q] == HeadEnd(b) && h[q] == Some(t)
    ensures AllFine(c, h, q, q + 1, lo, hi)
  {
    OneFine(c, h, q, t, lo, hi);
  }

  /** The jump that closes a loop leads to its test, which leads beyond the jump. */
  lemma LoopHeadEnd(c: Code, h: Typing, p: int, q: int, z: int, b: Block, t: Ty, lo: int, hi: int)
    requires b.LoopHead? && |h| == |c| + 1 && t.opens != [] && t.lo == 0 && 0 <= q < |c| && c[q] == HeadEnd(b)
             && h[q] == Some(t)
    requires q == p + CheckSize(b.t) + |Flat(b.b)| && q + 1 == z && lo <= p && z + b.x <= hi
    requires Sub(c, p, Words(ICheck(b.t, z + b.x - p))) && In(h, p, Spot(t, CheckSize(b.t)))
    ensures AllFine(c, h, q, q + 1, lo, hi)
  {
    hide Flat;
    InSpot(h, p, t, CheckSize(b.t));
    SubAt(c, p, Words(ICheck(b.t, z + b.x - p)), 0);
    OneFine(c, h, q, t, lo, hi);
  }

  // ---- choice L1; b; backcommit L2; L1: fail; L2: ----

  lemma SplitAnd(c: Code, h: Typing, p: int, z: int, b: Block, t: Ty, d: nat, lo: int, hi: int)
    requires b.And? && ItemHere(c, h, p, z, b, t, d, lo, hi)
    ensures var q := p + 1 + |Flat(b.b)|;
            && 0 <= p < |c| && c[p] == IChoice(z - 1 - p, 0) && h[p] == Some(t)
            && Sub(c, p + 1, Flat(b.b)) && In(h, p + 1, Types(b.b, Push(t))) && Has(h, q, Push(t))
              && h[q] == Some(Push(t))
            && p < q < |c| && c[q] == IBackCommit(2 + b.x) && q + 2 == z
            && c[q + 1] == IFail && h[q + 1] == Some(t)
    ensures Shape(b.b) && Valid(b.b, 0) && Balanced(b.b, 0) && Backed(b.b, true) && GoodExit(b.x, b.k, d)
  {
    hide Flat, Types;
    TypesLength(b.b, Push(t));
    In4(h, p, [Some(t)], Types(b.b, Push(t)), [Some(Push(t))], [Some(t)]);
    InOne(h, p, t);
    InOne(h, z - 2, Push(t));
    InOne(h, z - 1, t);
    Layout(c, p, b);
    BackedParts(b);
  }

  lemma {:induction false} TypedAnd(c: Code, h: Typing, p: int, z: int, b: Block, t: Ty, d: nat, lo: int, hi: int)
    requires b.And? && ItemHere(c, h, p, z, b, t, d, lo, hi)
    ensures AllFine(c, h, p, z, lo, hi)
    decreases b, 1
  {
    hide Flat, Types, ItemTypes, ItemWords, Shape, Valid, Balanced, Backed, AllFine, InnerBalanced;
    SplitAnd(c, h, p, z, b, t, d, lo, hi);
    ExitHas(h, z, b.k, b.x, d, t, hi);
    PushOk(t);
    var q := p + 1 + |Flat(b.b)|;
    PartHere(c, h, p + 1, b.b, Push(t), 0, lo, hi);
    TypedBlock(c, h, p + 1, b.b, Push(t), 0, 0, lo, hi);
    OneFine(c, h, p, t, lo, hi);
    OneFine(c, h, q, Push(t), lo, hi);
    OneFine(c, h, q + 1, t, lo, hi);
    FineJoin(c, h, p, p + 1, q, lo, hi);
    FineJoin(c, h, p, q, q + 1, lo, hi);
    FineJoin(c, h, p, q + 1, z, lo, hi);
  }

  // ---- choice L1; L2: b; partialcommit L2; L1: ----

  lemma SplitLoop(c: Code, h: Typing, p: int, z: int, b: Block, t: Ty, d: nat, lo: int, hi: int)
    requires b.Loop? && ItemHere(c, h, p, z, b, t, d, lo, hi)
    ensures var q := p + 1 + |Flat(b.b)|;
            && 0 <= p < |c| && c[p] == IChoice(z + b.x - p, 0) && h[p] == Some(t)
            && Sub(c, p + 1, Flat(b.b)) && In(h, p + 1, Types(b.b, Push(t))) && Has(h, q, Push(t))
              && h[q] == Some(Push(t))
            && p < q < |c| && c[q] == IPartialCommit(-|Flat(b.b)|) && q + 1 == z
    ensures Shape(b.b) && Valid(b.b, 0) && Balanced(b.b, 0) && Backed(b.b, true) && GoodExit(b.x, b.k, d)
    ensures Backed(b.b, false)
  {
    hide Flat, Types;
    TypesLength(b.b, Push(t));
    In3(h, p, [Some(t)], Types(b.b, Push(t)), [Some(Push(t))]);
    InOne(h, p, t);
    InOne(h, z - 1, Push(t));
    Layout(c, p, b);
    BackedParts(b);
  }

  lemma {:induction false} TypedLoop(c: Code, h: Typing, p: int, z: int, b: Block, t: Ty, d: nat, lo: int, hi: int)
    requires b.Loop? && ItemHere(c, h, p, z, b, t, d, lo, hi)
    ensures AllFine(c, h, p, z, lo, hi)
    decreases b, 1
  {
    hide Flat, Types, ItemTypes, ItemWords, Shape, Valid, Balanced, Backed, AllFine, InnerBalanced;
    SplitLoop(c, h, p, z, b, t, d, lo, hi);
    assert LoopOver(c, p + 1 + |Flat(b.b)|, b.b);
    ExitHas(h, z, b.k, b.x, d, t, hi);
    PushOk(t);
    var q := p + 1 + |Flat(b.b)|;
    PartHere(c, h, p + 1, b.b, Push(t), 0, lo, hi);
    TypedBlock(c, h, p + 1, b.b, Push(t), 0, 0, lo, hi);
    OneFine(c, h, p, t, lo, hi);
    OneFine(c, h, q, Push(t), lo, hi);
    FineJoin(c, h, p, p + 1, q, lo, hi);
    FineJoin(c, h, p, q, z, lo, hi);
  }

  // ---- (test L1; b)^n; L1: ----

  lemma {:induction false} TypedOptHead(c: Code, h: Typing, p: int, z: int, b: Block, t: Ty, d: nat, lo: int, hi: int)
    requires b.OptHead? && ItemHere(c, h, p, z, b, t, d, lo, hi)
    ensures AllFine(c, h, p, z, lo, hi)
    decreases b, 1, 0
  {
    hide Types, Flat;
    ExitHas(h, z, b.k, b.x, d, t, hi);
    BackedParts(b);
    TypedOpts(c, h, p, z, b, b.n, t, lo, hi);
  }

  lemma SplitOpts(c: Code, h: Typing, p: int, z: int, b: Block, n: nat, t: Ty)
    requires b.OptHead? && n > 0 && t.opens != [] && t.lo == 0
    requires Sub(c, p, OptWords(b.t, Flat(b.b), n, b.x)) && z == p + |OptWords(b.t, Flat(b.b), n, b.x)|
    requires In(h, p, OptTypes(Types(b.b, t), CheckSize(b.t), n, t)) && Has(h, z, t) && !At(c, z).IBack?
    ensures var p1 := p + CheckSize(b.t); var q := p1 + |Flat(b.b)|;
            && p1 <= q <= z && Sub(c, p, Words(ICheck(b.t, z + b.x - p))) && In(h, p, Spot(t, CheckSize(b.t)))
            && Sub(c, p1, Flat(b.b)) && In(h, p1, Types(b.b, t)) && Has(h, q, t) && !At(c, q).IBack?
            && Sub(c, q, OptWords(b.t, Flat(b.b), n - 1, b.x)) && z == q + |OptWords(b.t, Flat(b.b), n - 1, b.x)|
            && In(h, q, OptTypes(Types(b.b, t), CheckSize(b.t), n - 1, t))
  {
    hide Flat, Types, OptWords, OptTypes, In;
    OptsPlaced(c, p, z, b, n);
    OptsTyped(h, p, b, n, t);
    var q := p + CheckSize(b.t) + |Flat(b.b)|;
    NextCopy(c, z, b, n - 1, q);
    if n == 1 { NoOptWords(b, z, q); }
  }

  lemma OptsPlaced(c: Code, p: int, z: int, b: Block, n: nat)
    requires b.OptHead? && n > 0 && Sub(c, p, OptWords(b.t, Flat(b.b), n, b.x))
             && z == p + |OptWords(b.t, Flat(b.b), n, b.x)|
    ensures var p1 := p + CheckSize(b.t); var q := p1 + |Flat(b.b)|;
            && p1 <= q <= z && Sub(c, p, Words(ICheck(b.t, z + b.x - p))) && Sub(c, p1, Flat(b.b))
            && Sub(c, q, OptWords(b.t, Flat(b.b), n - 1, b.x)) && z == q + |OptWords(b.t, Flat(b.b), n - 1, b.x)|
  {
    hide Flat;
    var rest := OptWords(b.t, Flat(b.b), n - 1, b.x);
    Sub3(c, p, Words(ICheck(b.t, CheckSize(b.t) + |Flat(b.b)| + |rest| + b.x)), Flat(b.b), rest);
  }

  lemma OptsTyped(h: Typing, p: int, b: Block, n: nat, t: Ty)
    requires b.OptHead? && n > 0 && t.opens != [] && t.lo == 0
             && In(h, p, OptTypes(Types(b.b, t), CheckSize(b.t), n, t))
    ensures var p1 := p + CheckSize(b.t); var q := p1 + |Flat(b.b)|;
            && In(h, p, Spot(t, CheckSize(b.t))) && In(h, p1, Types(b.b, t))
            && In(h, q, OptTypes(Types(b.b, t), CheckSize(b.t), n - 1, t)) && (n > 1 ==> Has(h, q, t))
  {
    hide Flat, Types;
    TypesLength(b.b, t);
    var more := OptTypes(Types(b.b, t), CheckSize(b.t), n - 1, t);
    In3(h, p, Spot(t, CheckSize(b.t)), Types(b.b, t), more);
    var q := p + CheckSize(b.t) + |Flat(b.b)|;
    if n > 1 {
      assert more[0] == Some(t);
      assert h[q..q + |more|][0] == h[q];
    }
  }

  lemma {:induction false} TypedOpts(c: Code, h: Typing, p: int, z: int, b: Block, n: nat, t: Ty, lo: int, hi: int)
    requires b.OptHead? && |h| == |c| + 1 && t.opens != [] && t.lo == 0 && lo <= p && z + b.x <= hi
    requires Sub(c, p, OptWords(b.t, Flat(b.b), n, b.x)) && z == p + |OptWords(b.t, Flat(b.b), n, b.x)|
    requires In(h, p, OptTypes(Types(b.b, t), CheckSize(b.t), n, t)) && Has(h, z, t) && Has(h, z + b.x, t)
             && !At(c, z).IBack?
    requires Shape(b.b) && Valid(b.b, 0) && Balanced(b.b, 0) && Backed(b.b, true) && NoFail(b.b)
    ensures AllFine(c, h, p, z, lo, hi)
    decreases b, 0, n
  {
    hide Flat, Types, Shape, Valid, Balanced, Backed, OptWords, OptTypes, NoFail;
    if n == 0 {
      NoOptWords(b, z, p);
    } else {
      hide AllFine;
      SplitOpts(c, h, p, z, b, n, t);
      var p1 := p + CheckSize(b.t);
      var q := p1 + |Flat(b.b)|;
      PartHere(c, h, p1, b.b, t, 0, lo, hi);
      TypedBlock(c, h, p1, b.b, t, 0, 0, lo, hi);
      BodyWord(c, p1, b.b);
      WordsFine(c, h, p, ICheck(b.t, z + b.x - p), t, lo, hi);
      TypedOpts(c, h, q, z, b, n - 1, t, lo, hi);
      FineJoin(c, h, p, p1, q, lo, hi);
      FineJoin(c, h, p, q, z, lo, hi);
    }
  }

  lemma NoOptWords(b: Block, z: int, p: int)
    requires b.OptHead? && z == p + |OptWords(b.t, Flat(b.b), 0, b.x)|
    ensures z == p
  {
  }

  // ---- [test L1;] choice L1; first; (partialcommit; more)^m; commit L2; L1: els; L2: ----

  lemma UnionTypesAre(b: Block, t: Ty)
    requires b.Union? && t.opens != []
    ensures ItemTypes(b, t) == OtTypes(b.ot, t)
            + (Types(b.first, Push(t)) + MoreTypes(Types(b.more, Push(t)), b.m, Push(t))) + [Some(Push(t))]
              + Types(b.els, t)
  {
    hide Types, MoreTypes, OtTypes;
  }

  lemma UnionWordsAre(b: Block)
    requires b.Union?
    ensures var body := Flat(b.first) + MoreWords(Flat(b.more), b.m);
            ItemWords(b) == OtChoice(b.ot, b.aux, 1 + |body| + 1 + Exit(b.els, b.x)) + body
              + [ICommit(1 + |Flat(b.els)| + b.x)] + Flat(b.els)
  {
    hide Flat, MoreWords, OtChoice;
  }

  lemma SplitUnionTypes(h: Typing, p: int, z: int, b: Block, t: Ty)
    requires b.Union? && t.opens != [] && In(h, p, ItemTypes(b, t)) && z == p + |ItemWords(b)|
    ensures var p1 := p + OtSize(b.ot) + 1; var q := p1 + |Flat(b.first)|; var pe := z - |Flat(b.els)|;
            && In(h, p, OtTypes(b.ot, t)) && In(h, p1, Types(b.first, Push(t)))
              && In(h, q, MoreTypes(Types(b.more, Push(t)), b.m, Push(t)))
            && 0 <= pe - 1 < |h| && h[pe - 1] == Some(Push(t)) && In(h, pe, Types(b.els, t))
            && q + |MoreWords(Flat(b.more), b.m)| == pe - 1 && 0 <= p < p1 <= q <= pe - 1
  {
    hide Flat, Types, MoreWords, MoreTypes, ItemTypes, ItemWords, OtTypes;
    ItemLength(b, t);
    UnionTypesAre(b, t);
    UnionWordsAre(b);
    var mt, ft := MoreTypes(Types(b.more, Push(t)), b.m, Push(t)), Types(b.first, Push(t));
    TypesLength(b.first, Push(t));
    TypesLength(b.more, Push(t));
    TypesLength(b.els, t);
    MoreLength(Flat(b.more), b.m);
    In4(h, p, OtTypes(b.ot, t), ft + mt, [Some(Push(t))], Types(b.els, t));
    InSplit(h, p + OtSize(b.ot) + 1, ft, mt);
    InOne(h, p + OtSize(b.ot) + 1 + |ft + mt|, Push(t));
  }

  lemma SplitUnion(c: Code, p: int, z: int, b: Block)
    requires b.Union? && Sub(c, p, ItemWords(b)) && z == p + |ItemWords(b)|
    ensures var p1 := p + OtSize(b.ot) + 1; var q := p1 + |Flat(b.first)|; var pe := z - |Flat(b.els)|;
            var out := pe + Exit(b.els, b.x);
            && Sub(c, p, OtChoice(b.ot, b.aux, out - p - OtSize(b.ot))) && Sub(c, p1, Flat(b.first))
            && Sub(c, q, MoreWords(Flat(b.more), b.m)) && q + |MoreWords(Flat(b.more), b.m)| == pe - 1
            && 0 <= pe - 1 < |c| && c[pe - 1] == ICommit(1 + |Flat(b.els)| + b.x) && Sub(c, pe, Flat(b.els))
  {
    hide Flat, MoreWords, ItemWords, OtChoice;
    UnionWordsAre(b);
    var body := Flat(b.first) + MoreWords(Flat(b.more), b.m);
    var w := OtChoice(b.ot, b.aux, 1 + |body| + 1 + Exit(b.els, b.x));
    OtChoiceLength(b.ot, b.aux, 1 + |body| + 1 + Exit(b.els, b.x));
    Sub4(c, p, w, body, [ICommit(1 + |Flat(b.els)| + b.x)], Flat(b.els));
    Sub1(c, p + |w| + |body|, ICommit(1 + |Flat(b.els)| + b.x));
    SubSplit(c, p + |w|, Flat(b.first), MoreWords(Flat(b.more), b.m));
  }

  lemma UnionShape(c: Code, h: Typing, p: int, z: int, b: Block, t: Ty, d: nat, lo: int, hi: int)
    requires b.Union? && ItemHere(c, h, p, z, b, t, d, lo, hi)
    ensures |h| == |c| + 1 && t.opens != [] && t.lo == 0 && lo <= p && Sub(c, p, ItemWords(b))
            && z == p + |ItemWords(b)| && In(h, p, ItemTypes(b, t))
    ensures Shape(b.first) && Shape(b.more) && Shape(b.els) && Valid(b.first, 0) && Valid(b.more, 0)
            && Valid(b.els, ItemSlide(b.k, d))
    ensures Balanced(b.first, 0) && Balanced(b.more, 0) && Balanced(b.els, 0) && Backed(b.first, true)
            && Backed(b.more, true) && Backed(b.els, true)
    ensures b.aux <= OtStep(b.ot) && (b.els.End? ==> Flat(b.els) == []) && !At(c, z).IBack?
    ensures Has(h, z, t) && Has(h, z + ItemSlide(b.k, d), t) && z + ItemSlide(b.k, d) <= hi && Has(h, z + b.x, t)
            && z + b.x <= hi
  {
    hide Flat, Types, ItemWords, ItemTypes;
    BackedParts(b);
    ExitHas(h, z, b.k, b.x, d, t, hi);
    if b.els.End? { NoWords(); }
  }

  /** The word behind a copy of the body: a partial commit, or the commit. */
  lemma MoreStart(c: Code, h: Typing, q: int, pc: int, f: Code, w: Typing, m: nat, u: Ty)
    requires Sub(c, q, MoreWords(f, m)) && In(h, q, MoreTypes(w, m, u)) && q + |MoreWords(f, m)| == pc
    requires 0 <= pc < |c| && c[pc].ICommit? && |h| == |c| + 1 && h[pc] == Some(u) && u.lo == 0
    ensures 0 <= q < |c| && h[q] == Some(u) && Has(h, q, u) && !At(c, q).IBack?
  {
    if m > 0 {
      SubAt(c, q, MoreWords(f, m), 0);
      assert MoreTypes(w, m, u)[0] == Some(u);
      assert h[q..q + |MoreTypes(w, m, u)|][0] == h[q];
    }
  }

  lemma SplitMore(c: Code, h: Typing, q: int, b: Block, m: nat, u: Ty)
    requires b.Union? && m > 0 && u.opens != [] && Sub(c, q, MoreWords(Flat(b.more), m))
             && In(h, q, MoreTypes(Types(b.more, u), m, u))
    ensures var q1 := q + 1 + |Flat(b.more)|;
            && 0 <= q < |c| && c[q] == IPartialCommit(1) && q < |h| && h[q] == Some(u) && Sub(c, q + 1, Flat(b.more))
              && In(h, q + 1, Types(b.more, u))
            && Sub(c, q1, MoreWords(Flat(b.more), m - 1)) && In(h, q1, MoreTypes(Types(b.more, u), m - 1, u))
            && |MoreWords(Flat(b.more), m)| == 1 + |Flat(b.more)| + |MoreWords(Flat(b.more), m - 1)|
  {
    hide Flat, Types;
    TypesLength(b.more, u);
    Sub3(c, q, [IPartialCommit(1)], Flat(b.more), MoreWords(Flat(b.more), m - 1));
    Sub1(c, q, IPartialCommit(1));
    In3(h, q, [Some(u)], Types(b.more, u), MoreTypes(Types(b.more, u), m - 1, u));
    InOne(h, q, u);
  }

  lemma {:induction false} TypedMore(c: Code, h: Typing, q: int, pc: int, b: Block, m: nat, u: Ty, lo: int, hi: int)
    requires b.Union? && |h| == |c| + 1 && u.opens != [] && u.lo == 0 && |u.opens| > 1 && Top(u) == 0 && lo <= q
             && pc <= hi
    requires Sub(c, q, MoreWords(Flat(b.more), m)) && In(h, q, MoreTypes(Types(b.more, u), m, u))
             && q + |MoreWords(Flat(b.more), m)| == pc
    requires 0 <= pc < |c| && c[pc].ICommit? && h[pc] == Some(u)
    requires Shape(b.more) && Valid(b.more, 0) && Balanced(b.more, 0) && Backed(b.more, true)
    ensures AllFine(c, h, q, pc, lo, hi)
    decreases b, 0, m
  {
    hide Flat, Types, Shape, Valid, Balanced, Backed, MoreWords, MoreTypes;
    if m == 0 {
      NoMoreWords(b, q, pc);
    } else {
      hide AllFine;
      SplitMore(c, h, q, b, m, u);
      var q1 := q + 1 + |Flat(b.more)|;
      MoreStart(c, h, q1, pc, Flat(b.more), Types(b.more, u), m - 1, u);
      PartHere(c, h, q + 1, b.more, u, 0, lo, hi);
      TypedBlock(c, h, q + 1, b.more, u, 0, 0, lo, hi);
      OneFine(c, h, q, u, lo, hi);
      TypedMore(c, h, q1, pc, b, m - 1, u, lo, hi);
      FineJoin(c, h, q, q + 1, q1, lo, hi);
      FineJoin(c, h, q, q1, pc, lo, hi);
    }
  }

  lemma NoMoreWords(b: Block, q: int, pc: int)
    requires b.Union? && q + |MoreWords(Flat(b.more), 0)| == pc
    ensures q == pc
  {
  }

  lemma {:induction false} TypedUnion(c: Code, h: Typing, p: int, z: int, b: Block, t: Ty, d: nat, lo: int, hi: int)
    requires b.Union? && ItemHere(c, h, p, z, b, t, d, lo, hi)
    ensures AllFine(c, h, p, z, lo, hi)
    decreases b, 1
  {
    hide *;
    UnionShape(c, h, p, z, b, t, d, lo, hi);
    SplitUnionTypes(h, p, z, b, t);
    SplitUnion(c, p, z, b);
    ExitIs(b.els, b.x);
    PushOk(t);
    var u, p1 := Push(t), p + OtSize(b.ot) + 1;
    var q, pe := p1 + |Flat(b.first)|, z - |Flat(b.els)|;
    CommitIs(c, h, pe - 1, u);
    MoreStart(c, h, q, pe - 1, Flat(b.more), Types(b.more, u), b.m, u);
    PartHere(c, h, p1, b.first, u, 0, lo, hi);
    PartHere(c, h, pe, b.els, t, ItemSlide(b.k, d), lo, hi);
    TypedBlock(c, h, p1, b.first, u, 0, 0, lo, hi);
    TypedBlock(c, h, pe, b.els, t, ItemSlide(b.k, d), 0, lo, hi);
    TypedMore(c, h, q, pe - 1, b, b.m, u, lo, hi);
    OtFine(c, h, p, b.ot, b.aux, pe + Exit(b.els, b.x), t, lo, hi);
    CommitFine(c, h, pe - 1, z + b.x, t, lo, hi);
    FineJoin(c, h, p, p1, q, lo, hi);
    FineJoin(c, h, p, q, pe - 1, lo, hi);
    FineJoin(c, h, p, pe - 1, pe, lo, hi);
    FineJoin(c, h, p, pe, z, lo, hi);
  }

  lemma CommitIs(c: Code, h: Typing, p: int, u: Ty)
    requires 0 <= p < |c| && c[p].ICommit? && p < |h| && h[p] == Some(u) && u.lo == 0
    ensures Has(h, p, u) && !At(c, p).IBack?
  {
  }
}
