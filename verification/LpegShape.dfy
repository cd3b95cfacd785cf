/** What the builders learn by looking at code, said about the block behind it. */
module LpegShape {
  import opened LpegCode
  import opened LpegMachine
  import opened LpegPeg
  import opened LpegBlock
  import opened LpegExec
  import opened LpegBuild

  // ---- blocks in a row ----

  function Append(a: Block, b: Block): Block {
    match a
    case End => b
    case Prim(i, k) => Prim(i, Append(k, b))
    case TestJmp(t, b1, b2, x, k) => TestJmp(t, b1, b2, x, Append(k, b))
    case Union(ot, aux, first, more, m, els, x, k) => Union(ot, aux, first, more, m, els, x, Append(k, b))
    case Not(ot, b1, x, k) => Not(ot, b1, x, Append(k, b))
    case NotHead(t, b1, x, k) => NotHead(t, b1, x, Append(k, b))
    case And(b1, x, k) => And(b1, x, Append(k, b))
    case Loop(b1, x, k) => Loop(b1, x, Append(k, b))
    case LoopHead(t, b1, x, k) => LoopHead(t, b1, x, Append(k, b))
    case OptHead(t, b1, n, x, k) => OptHead(t, b1, n, x, Append(k, b))
  }

  lemma {:induction false} AppendFlat(a: Block, b: Block)
    ensures Flat(Append(a, b)) == Flat(a) + Flat(b)
  {
    if !a.End? {
      hide ItemWords;
      AppendFlat(a.k, b);
      AppendHead(a, b);
      Assoc(ItemWords(a), Flat(a.k), Flat(b));
    } else {
      assert [] + Flat(b) == Flat(b);
    }
  }

  lemma Assoc(f: Code, g: Code, h: Code)
    ensures f + (g + h) == f + g + h
  {
  }

  lemma AppendHead(a: Block, b: Block)
    requires !a.End?
    ensures !Append(a, b).End? && Append(a, b).k == Append(a.k, b) && ItemWords(Append(a, b)) == ItemWords(a)
  {
    hide Flat;
  }

  function Bind(r: Res, b: Block, x: Subject): Res
    requires r.Ok? ==> 0 <= r.j <= |x.s|
  {
    if r.Ok? then EvalB(b, x, r.j, r.caps) else r
  }

  lemma {:induction false} AppendEval(a: Block, b: Block, x: Subject, i: int, caps: seq<Capture>)
    requires 0 <= i <= |x.s|
    ensures EvalB(Append(a, b), x, i, caps) == Bind(EvalB(a, x, i, caps), b, x)
  {
    if !a.End? {
      AppendItem(a, b, x, i, caps);
      var r := EvalItem(a, x, i, caps);
      if r.Ok? {
        AppendEval(a.k, b, x, r.j, r.caps);
      }
    }
  }

  /** What follows an item does not matter to the item. */
  lemma {:induction false} AppendItem(a: Block, b: Block, x: Subject, i: int, caps: seq<Capture>)
    requires !a.End? && 0 <= i <= |x.s|
    ensures EvalItem(Append(a, b), x, i, caps) == EvalItem(a, x, i, caps)
  {
    match a
    case Union(ot, _, first, _, m, _, _, _) =>
      if OtPasses(ot, x, i) {
        var r := EvalB(first, x, i + OtStep(ot), caps);
        if r.Ok? { AppendMore(a, b, m, x, r.j, r.caps); }
      }
    case Loop(_, _, _) => AppendRounds(a, b, x, i, caps);
    case LoopHead(_, _, _, _) => AppendRounds(a, b, x, i, caps);
    case OptHead(_, _, n, _, _) => AppendOpts(a, b, n, x, i, caps);
    case _ =>
  }

  lemma {:induction false} AppendMore(a: Block, b: Block, m: nat, x: Subject, i: int, caps: seq<Capture>)
    requires a.Union? && 0 <= i <= |x.s|
    ensures EvalMore(Append(a, b), m, x, i, caps) == EvalMore(a, m, x, i, caps)
    decreases m
  {
    if m > 0 {
      var r := EvalB(a.more, x, i, caps);
      if r.Ok? { AppendMore(a, b, m - 1, x, r.j, r.caps); }
    }
  }

  lemma {:induction false} AppendRounds(a: Block, b: Block, x: Subject, i: int, caps: seq<Capture>)
    requires (a.Loop? || a.LoopHead?) && 0 <= i <= |x.s|
    ensures EvalRounds(Append(a, b), x, i, caps) == EvalRounds(a, x, i, caps)
    decreases |x.s| - i
  {
    if a.LoopHead? && !Passes(a.t, x.s, i) {
    } else {
      var r := EvalB(a.b, x, if a.Loop? then i else i + CheckStep(a.t), caps);
      if r.Ok? && r.j > i { AppendRounds(a, b, x, r.j, r.caps); }
    }
  }

  lemma {:induction false} AppendOpts(a: Block, b: Block, n: nat, x: Subject, i: int, caps: seq<Capture>)
    requires a.OptHead? && 0 <= i <= |x.s|
    ensures EvalOpts(Append(a, b), n, x, i, caps) == EvalOpts(a, n, x, i, caps)
    decreases n
  {
    if n > 0 && Passes(a.t, x.s, i) {
      var r := EvalB(a.b, x, i + CheckStep(a.t), caps);
      if r.Ok? { AppendOpts(a, b, n - 1, x, r.j, r.caps); }
    }
  }

  lemma {:induction false} AppendGood(a: Block, b: Block, d: nat)
    requires Shape(a) && Shape(b) && Balanced(a, d) && Balanced(b, 0) && Valid(a, 0) && Valid(b, 0)
    ensures Shape(Append(a, b)) && Balanced(Append(a, b), d) && Valid(Append(a, b), 0)
  {
    if !a.End? {
      var d2 := if a.Prim? && a.i.ICapture? && a.i.op.OpenCap? then d + 1
                else if a.Prim? && a.i.ICapture? && a.i.op.CloseCap? then d - 1 else d;
      AppendGood(a.k, b, d2);
    }
  }

  lemma {:induction false} AppendBacked(a: Block, b: Block, fed: bool)
    requires Backed(a, fed) && Backed(b, false)
    ensures Backed(Append(a, b), fed)
    decreases a
  {
    if a.End? {
      if fed { BackedMore(b, false); }
    } else if a.Prim? {
      AppendBacked(a.k, b, if a.i.IBack? then false else a.i.ICheck? || (a.i.ICapture? && fed));
    } else {
      AppendBacked(a.k, b, false);
    }
  }

  lemma AppendSpine(a: Block, b: Block)
    requires !b.End? && (a.End? ==> Spine(b))
    ensures Spine(Append(a, b))
  {
    if !a.End? {
      assert !Append(a.k, b).End?;
    }
  }

  lemma NoWords()
    ensures Flat(End) == []
  {
  }

  lemma GoodOf(b: Block)
    requires Good(b)
    ensures Shape(b) && Balanced(b, 0) && Valid(b, 0) && Spine(b) && Backed(b, false)
  {
  }

  // ---- the first instruction ----

  lemma FlatEmpty(b: Block)
    requires Shape(b)
    ensures Flat(b) == [] <==> b.End?
  {
    if !b.End? { ItemHead(b); }
  }

  /** The first word of an item: its instruction, a test that jumps forward, or a choice. */
  lemma ItemHead(b: Block)
    requires !b.End? && Shape(b)
    ensures |ItemWords(b)| > 0 && At(Flat(b), 0) == ItemWords(b)[0]
    ensures b.Prim? ==> ItemWords(b)[0] == b.i
    ensures !b.Prim? ==> ItemWords(b)[0].IChoice? || (ItemWords(b)[0].ICheck? && ItemWords(b)[0].offset > 0)
  {
    if b.OptHead? {
      assert OptWords(b.t, Flat(b.b), b.n, b.x)[0].offset > 0;
    }
  }

  /** The code starts with a check exactly when the block starts with one. */
  lemma CheckFirst(b: Block)
    requires Shape(b)
    ensures IsFixCheck(At(Flat(b), 0)) <==> b.Prim? && b.i.ICheck?
    ensures b.Prim? ==> At(Flat(b), 0) == b.i
  {
    if !b.End? { ItemHead(b); }
  }

  lemma FailFirst(b: Block)
    requires Shape(b)
    ensures IsFailCode(Flat(b)) <==> b.Prim? && b.i.IFail?
  {
    if !b.End? { ItemHead(b); }
  }

  lemma {:induction false} NoFailWords(pre: Code, b: Block)
    requires Shape(b)
    ensures NoFailFrom(pre + Flat(b), |pre|) <==> NoFail(b)
    decreases b
  {
    var c := pre + Flat(b);
    if !b.End? {
      ItemHead(b);
      assert c[|pre|] == ItemWords(b)[0];
      if b.Prim? {
        NoFailWords(pre + Words(b.i), b.k);
        assert pre + Words(b.i) + Flat(b.k) == c;
      }
    }
  }

  /** isheadfail: a check and then nothing that can fail. */
  lemma HeadFail(b: Block)
    requires Shape(b)
    ensures IsHeadFail(Flat(b)) <==> b.Prim? && b.i.ICheck? && NoFail(b.k)
  {
    CheckFirst(b);
    if b.Prim? && b.i.ICheck? {
      NoFailWords(Words(b.i), b.k);
    }
  }

  /** tocharset */
  lemma CharsetTag(b: Block)
    requires Shape(b)
    ensures var t := ToCharset(Flat(b));
            && (t.NoInfo? <==> !(b.Prim? && b.i.ICheck?))
            && (t.IsCharset? <==> b.Prim? && b.i.ICheck? && b.k.End? && CheckStep(b.i.ck) == 1)
            && (!t.NoInfo? ==> t.cs == StartSet(b.i.ck))
  {
    CheckFirst(b);
    if b.Prim? && b.i.ICheck? {
      var c := Flat(b);
      assert c == Words(b.i) + Flat(b.k);
      FlatEmpty(b.k);
      if !b.k.End? {
        ItemHead(b.k);
        assert At(c, Size(b.i)) == ItemWords(b.k)[0];
      }
    }
  }

  /** A check that passes at a position passes on a byte of its start set. */
  lemma PassStart(ck: Check, x: Subject, i: int)
    requires GoodCheck(ck) && 0 <= i <= |x.s| && Passes(ck, x.s, i)
    ensures i < |x.s| && x.s[i] in StartSet(ck)
  {
  }

  // ---- meaning of a block and of a pattern ----

  /** The block does to the capture list what the pattern says, and diverges where the pattern does. */
  ghost predicate Agrees(rb: Res, rp: Res, caps: seq<Capture>) {
    match rp
    case Ok(j, cs) => rb == Ok(j, caps + cs)
    case Fail => rb == Fail
    case Diverge => rb == Diverge
  }

  ghost predicate Impl(b: Block, p: Patt) {
    forall x: Subject, i: int, caps: seq<Capture> | 0 <= i <= |x.s| ::
      Agrees(EvalB(b, x, i, caps), Eval(p, x, i), caps)
  }
}
