/** The code of a union: ordered choice survives merging, testing and splitting alternatives. */
module LpegUnion {
  import opened LpegCode
  import opened LpegMachine
  import opened LpegPeg
  import opened LpegBlock
  import opened LpegExec
  import opened LpegRun
  import opened LpegBuild
  import opened LpegShape

  // ---- the block that the union code belongs to ----

  predicate StartsWithCheck(b: Block) {
    b.Prim? && b.i.ICheck?
  }

  predicate IsCharsetBlock(b: Block) {
    StartsWithCheck(b) && b.k.End? && CheckStep(b.i.ck) == 1
  }

  /** basicUnion */
  function Join(b1: Block, b2: Block): Block {
    if IsCharsetBlock(b1) && IsCharsetBlock(b2) then
      Prim(ICheck(Set(StartSet(b1.i.ck) + StartSet(b2.i.ck)), 0), End)
    else if StartsWithCheck(b1)
      && (NoFail(b1.k) || (StartsWithCheck(b2) && StartSet(b1.i.ck) !! StartSet(b2.i.ck))) then
      TestJmp(b1.i.ck, b1.k, b2, 0, End)
    else Choose(b1, b2)
  }

  /** A choice between two blocks, rotated by optimizechoice if the first starts with a check. */
  function Choose(b1: Block, b2: Block): Block {
    if StartsWithCheck(b1) then Union(Some(b1.i.ck), CheckStep(b1.i.ck), b1.k, End, 0, b2, 0, End)
    else Union(None, 0, b1, End, 0, b2, 0, End)
  }

  /** May b2 succeed where the test t passes? */
  predicate MayInterfere(t: Check, b2: Block) {
    !StartsWithCheck(b2) || t.Any? || !(StartSet(t) !! StartSet(b2.i.ck))
  }

  /** separateparts */
  function Split(b1: Block, b2: Block): Block {
    match b1
    case TestJmp(t, f1, f2, x, End) =>
      if MayInterfere(t, b2) then Union(Some(t), 1, f1, End, 0, Split(f2, b2), x, End)
      else TestJmp(t, f1, Split(f2, b2), x, End)
    case Union(ot, aux, first, more, m, els, x, End) => Union(ot, aux, first, more, m, Split(els, b2), x, End)
    case _ => Join(b1, b2)
  }

  // ---- firstpart finds the first alternative ----

  function PartSize(b: Block): nat {
    if b.TestJmp? && b.k.End? then CheckSize(b.t) + |Flat(b.b1)| + 1
    else if b.Union? && b.k.End? then OtSize(b.ot) + 1 + |Flat(b.first) + MoreWords(Flat(b.more), b.m)| + 1
    else 0
  }

  lemma FirstPartIs(b: Block)
    requires Shape(b) && Valid(b, 0)
    ensures FirstPart(Flat(b)) == PartSize(b)
  {
    hide Flat, ItemWords, Shape, Valid;
    if b.End? {
      NoWords();
    } else if b.Prim? {
      PrimFirst(b);
    } else {
      ItemPart(b);
    }
  }

  lemma PrimFirst(b: Block)
    requires b.Prim? && Shape(b)
    ensures FirstPart(Flat(b)) == 0
  {
    CheckFirst(b);
  }

  lemma ExitZero(b: Block)
    requires !b.End? && !b.Prim? && Shape(b) && Valid(b, 0)
    ensures b.x == 0 && Shape(b.k)
    ensures (b.NotHead? || b.LoopHead? || b.OptHead?) ==> NoFail(b.b)
    ensures b.OptHead? ==> b.n > 0
  {
  }

  /** Where the first item ends, and that something follows exactly when the block goes on. */
  lemma ItemEnds(b: Block)
    requires !b.End? && Shape(b)
    ensures Sub(Flat(b), 0, ItemWords(b)) && |ItemWords(b)| <= |Flat(b)|
    ensures |ItemWords(b)| == |Flat(b)| <==> b.k.End?
  {
    FlatEmpty(b.k);
  }

  lemma ItemPart(b: Block)
    requires !b.End? && !b.Prim? && Shape(b) && Valid(b, 0)
    ensures FirstPart(Flat(b)) == PartSize(b)
  {
    hide Flat, ItemWords, Shape, Valid, MoreWords, OptWords, Sub;
    var c, z := Flat(b), |ItemWords(b)|;
    ItemEnds(b);
    ExitZero(b);
    Layout(c, 0, b);
    match b
    case TestJmp(_, _, _, _, _) =>
    case Union(_, _, _, _, _, _, _, _) => UnionPart(c, z, b);
    case Not(_, _, _, _) =>
    case NotHead(_, _, _, _) =>
    case And(_, _, _) =>
    case Loop(_, _, _) =>
    case LoopHead(_, _, _, _) =>
    case OptHead(_, _, _, _, _) => OptPart(c, z, b);
  }

  lemma UnionPart(c: Code, z: int, b: Block)
    requires b.Union? && b.x == 0 && ItemAt(c, 0, z, b) && z <= |c| && (z == |c| <==> b.k.End?)
    ensures FirstPart(c) == PartSize(b)
  {
    hide Flat, ItemWords, MoreWords, Sub;
  }

  lemma OptPart(c: Code, z: int, b: Block)
    requires b.OptHead? && b.x == 0 && NoFail(b.b) && b.n > 0
    requires Sub(c, 0, OptWords(b.t, Flat(b.b), b.n, 0)) && |OptWords(b.t, Flat(b.b), b.n, 0)| == z
    ensures FirstPart(c) == 0
  {
    hide Flat;
    var f := Flat(b.b);
    OptLayout(c, z, b.t, f, b.n, 0, 0);
    NoFailQuiet(b.b);
    OptQuiet(b.t, f, b.n);
    SubAt(c, 0, OptWords(b.t, f, b.n, 0), z - 1);
  }

  /** No word of w can end an alternative. */
  predicate Quiet(w: Code) {
    forall j :: 0 <= j < |w| ==> !w[j].IJmp? && !w[j].ICommit?
  }

  lemma {:induction false} NoFailQuiet(b: Block)
    requires NoFail(b)
    ensures Quiet(Flat(b))
  {
    if !b.End? { NoFailQuiet(b.k); }
  }

  lemma {:induction false} OptQuiet(t: Check, f: Code, n: nat)
    requires Quiet(f)
    ensures Quiet(OptWords(t, f, n, 0))
    decreases n
  {
    if n > 0 {
      OptQuiet(t, f, n - 1);
    }
  }

  // ---- the union code is the code of that block ----

  lemma JoinFlat(b1: Block, b2: Block)
    requires Shape(b1) && Shape(b2)
    ensures BasicUnion(Flat(b1), Flat(b2)) == Flat(Join(b1, b2))
  {
    var c1, c2 := Flat(b1), Flat(b2);
    hide Flat, ItemWords, ToCharset, IsHeadFail, Shape;
    CharsetTag(b1);
    CharsetTag(b2);
    HeadFail(b1);
    if IsCharsetBlock(b1) && IsCharsetBlock(b2) {
      OnePrim(Join(b1, b2));
    } else if StartsWithCheck(b1) && (NoFail(b1.k) || (StartsWithCheck(b2) && StartSet(b1.i.ck) !! StartSet(b2.i.ck))) {
      TestJmpIs(b1, b2);
    } else {
      ChooseFlat(b1, b2);
    }
  }

  lemma OnePrim(b: Block)
    requires b.Prim? && b.k.End?
    ensures Flat(b) == Words(b.i)
  {
  }

  /** A block that starts with a check: turning the check into a test only sets its offset. */
  lemma AsTestIs(b: Block, offset: int)
    requires StartsWithCheck(b) && Shape(b)
    ensures Flat(b) != [] && Flat(b)[0].ICheck? && AsTest(Flat(b), offset) == Words(ICheck(b.i.ck, offset)) + Flat(b.k)
    ensures |Flat(b)| == CheckSize(b.i.ck) + |Flat(b.k)|
  {
    assert Flat(b) == Words(b.i) + Flat(b.k);
    assert Words(b.i)[1..] == Words(ICheck(b.i.ck, offset))[1..];
  }

  lemma TestJmpIs(b1: Block, b2: Block)
    requires StartsWithCheck(b1) && Shape(b1)
    ensures var c1, c2 := Flat(b1), Flat(b2);
            && c1 != [] && c1[0].ICheck?
            && AsTest(c1, |c1| + 1) + [IJmp(|c2| + 1)] + c2 == Flat(TestJmp(b1.i.ck, b1.k, b2, 0, End))
  {
    hide Flat, ItemWords;
    AsTestIs(b1, |Flat(b1)| + 1);
    TestJmpFlat(b1.i.ck, b1.k, b2);
  }

  lemma ChooseFlat(b1: Block, b2: Block)
    requires Shape(b1)
    ensures var c1, c2 := Flat(b1), Flat(b2);
            OptChoice([IChoice(1 + |c1| + 1, 0)] + c1 + [ICommit(1 + |c2|)] + c2) == Flat(Choose(b1, b2))
  {
    hide Flat, ItemWords, OptChoice, MoreWords, OtWords, Shape;
    var c1, c2 := Flat(b1), Flat(b2);
    RotateIs(b1, 1 + |c1| + 1, [ICommit(1 + |c2|)] + c2);
    Assoc([IChoice(1 + |c1| + 1, 0)] + c1, [ICommit(1 + |c2|)], c2);
    if StartsWithCheck(b1) {
      UnionFlat(Some(b1.i.ck), CheckStep(b1.i.ck), b1.k, End, 0, b2);
      AsTestIs(b1, 0);
      NoMore(b1.k);
    } else {
      UnionFlat(None, 0, b1, End, 0, b2);
      NoMore(b1);
      NoTest(1 + |c1| + 1);
    }
  }

  lemma NoTest(offset: int)
    ensures OtWords(None, offset) == [] && OtSize(None) == 0
  {
  }

  lemma NoMore(first: Block)
    ensures Flat(first) + MoreWords(Flat(End), 0) == Flat(first)
  {
  }

  lemma UnionFlat(ot: Option<Check>, aux: nat, first: Block, more: Block, m: nat, els: Block)
    ensures var body := Flat(first) + MoreWords(Flat(more), m);
            Flat(Union(ot, aux, first, more, m, els, 0, End))
            == OtWords(ot, OtSize(ot) + 1 + |body| + 1) + [IChoice(1 + |body| + 1, aux)] + body
              + ([ICommit(1 + |Flat(els)|)] + Flat(els))
  {
    var b := Union(ot, aux, first, more, m, els, 0, End);
    var body := Flat(first) + MoreWords(Flat(more), m);
    OneItem(b);
    UnionItemWords(b);
    hide *;
    NoExit(els);
    UnionWordsJoin(ot, aux, body, Flat(els));
  }

  lemma OneItem(b: Block)
    requires !b.End? && b.k.End?
    ensures Flat(b) == ItemWords(b)
  {
    hide ItemWords;
    assert Flat(b) == ItemWords(b) + Flat(End);
    assert Flat(End) == [];
  }

  lemma UnionItemWords(b: Block)
    requires b.Union?
    ensures ItemWords(b) ==
            UnionWords(b.ot, b.aux, Flat(b.first) + MoreWords(Flat(b.more), b.m), Flat(b.els), Exit(b.els, b.x), b.x)
  {
    hide Flat, MoreWords, UnionWords;
  }

  lemma NoExit(b: Block)
    ensures Exit(b, 0) == 0
  {
  }

  lemma UnionWordsJoin(ot: Option<Check>, aux: nat, body: Code, fe: Code)
    ensures UnionWords(ot, aux, body, fe, 0, 0)
            == OtWords(ot, OtSize(ot) + 1 + |body| + 1) + [IChoice(1 + |body| + 1, aux)] + body
              + ([ICommit(1 + |fe|)] + fe)
  {
    hide OtWords, OtSize;
    Assoc(OtWords(ot, OtSize(ot) + 1 + |body| + 1) + [IChoice(1 + |body| + 1, aux)] + body, [ICommit(1 + |fe|)], fe);
  }

  /** optimizechoice on a choice, the code of b, and an instruction that is not a check. */
  lemma RotateIs(b: Block, offset: int, rest: Code)
    requires Shape(b) && rest != [] && !rest[0].ICheck?
    ensures var c := [IChoice(offset, 0)] + Flat(b) + rest;
            OptChoice(c) == if StartsWithCheck(b)
                            then OtWords(Some(b.i.ck), offset)
                              + [IChoice(offset - CheckSize(b.i.ck), CheckStep(b.i.ck))] + Flat(b.k) + rest
                            else c
  {
    var c := [IChoice(offset, 0)] + Flat(b) + rest;
    CheckFirst(b);
    assert At(c, 1) == if b.End? then rest[0] else At(Flat(b), 0) by { FlatEmpty(b); }
    if StartsWithCheck(b) {
      RotateCheck(b, offset, rest);
    }
  }

  lemma RotateCheck(b: Block, offset: int, rest: Code)
    requires StartsWithCheck(b) && Shape(b)
    ensures OptChoice([IChoice(offset, 0)] + Flat(b) + rest)
         == OtWords(Some(b.i.ck), offset) + [IChoice(offset - CheckSize(b.i.ck), CheckStep(b.i.ck))] + Flat(b.k) + rest
  {
    hide OptChoice, OtWords, Words;
    var c := [IChoice(offset, 0)] + Flat(b) + rest;
    assert Flat(b) == Words(b.i) + Flat(b.k);
    assert Flat(b) + rest == Words(b.i) + (Flat(b.k) + rest);
    assert c == [IChoice(offset, 0)] + (Words(b.i) + (Flat(b.k) + rest));
    RotateWords(c, b.i.ck, offset, Flat(b.k) + rest);
  }

  lemma RotateWords(c: Code, ck: Check, offset: int, rest: Code)
    requires c == [IChoice(offset, 0)] + (Words(ICheck(ck, 0)) + rest)
    ensures OptChoice(c) == OtWords(Some(ck), offset) + [IChoice(offset - CheckSize(ck), CheckStep(ck))] + rest
  {
    var w := Words(ICheck(ck, 0));
    assert c[2..1 + CheckSize(ck)] == w[1..];
    assert c[1 + CheckSize(ck)..] == rest;
    assert Words(ICheck(ck, offset)) == [ICheck(ck, offset)] + w[1..];
  }

  lemma {:induction false} SplitFlat(b1: Block, b2: Block)
    requires Shape(b1) && Valid(b1, 0) && Spine(b1) && Shape(b2)
    ensures SeparateParts(Flat(b1), Flat(b2)) == Flat(Split(b1, b2))
    decreases b1
  {
    hide Flat, ItemWords, ToCharset, FirstPart, Shape;
    FirstPartIs(b1);
    if b1.TestJmp? && b1.k.End? {
      SpineParts(b1);
      SplitFlat(b1.b2, b2);
      SplitTest(b1, b2);
    } else if b1.Union? && b1.k.End? {
      SpineParts(b1);
      SplitFlat(b1.els, b2);
      SplitUnion(b1, b2);
    } else {
      JoinFlat(b1, b2);
    }
  }

  lemma SpineParts(b: Block)
    requires (b.TestJmp? || b.Union?) && b.k.End? && Shape(b) && Valid(b, 0) && Spine(b)
    ensures b.x == 0
    ensures b.TestJmp? ==> Shape(b.b1) && Shape(b.b2) && Valid(b.b2, 0) && Spine(b.b2) && Valid(b.b1, 0)
    ensures b.TestJmp? ==> GoodCheck(b.t) && (NoFail(b.b1) || Avoids(StartSet(b.t), b.b2))
    ensures b.Union? ==> Shape(b.els) && Valid(b.els, 0) && Spine(b.els)
  {
  }

  lemma TestJmpFlat(t: Check, f1: Block, f2: Block)
    ensures Flat(TestJmp(t, f1, f2, 0, End))
            == Words(ICheck(t, CheckSize(t) + |Flat(f1)| + 1)) + Flat(f1) + [IJmp(1 + |Flat(f2)|)] + Flat(f2)
  {
    var b := TestJmp(t, f1, f2, 0, End);
    assert Flat(b) == ItemWords(b) + Flat(End);
    assert ItemWords(b) == TestJmpWords(t, Flat(f1), Flat(f2), Exit(f2, 0), 0);
  }

  lemma SplitTest(b1: Block, b2: Block)
    requires b1.TestJmp? && b1.k.End? && b1.x == 0 && Shape(b2)
    requires FirstPart(Flat(b1)) == PartSize(b1) && SeparateParts(Flat(b1.b2), Flat(b2)) == Flat(Split(b1.b2, b2))
    ensures SeparateParts(Flat(b1), Flat(b2)) == Flat(Split(b1, b2))
  {
    hide Flat, ItemWords, ToCharset, FirstPart, SeparateParts, Split, Shape, Words, Pads, OtWords;
    SeparateStep(Flat(b1), Flat(b2));
    SplitStep(b1, b2);
    var c1, t, f := Flat(b1), b1.t, Flat(b1.b1);
    var rest := Split(b1.b2, b2);
    TestJmpFlat(t, b1.b1, b1.b2);
    TestJmpFlat(t, b1.b1, rest);
    UnionFlat(Some(t), 1, b1.b1, End, 0, rest);
    NoMore(b1.b1);
    CharsetTag(b2);
    SplitTestWords(c1, t, f, Flat(b1.b2), Flat(rest));
    assert Interfere(c1[0], ToCharset(Flat(b2))) == MayInterfere(t, b2);
  }

  lemma OtLength(ot: Option<Check>)
    ensures forall offset :: |OtWords(ot, offset)| == OtSize(ot)
  {
  }

  lemma SplitStep(b1: Block, b2: Block)
    requires (b1.TestJmp? || b1.Union?) && b1.k.End?
    ensures b1.TestJmp? && MayInterfere(b1.t, b2) ==>
            Split(b1, b2) == Union(Some(b1.t), 1, b1.b1, End, 0, Split(b1.b2, b2), b1.x, End)
    ensures b1.TestJmp? && !MayInterfere(b1.t, b2) ==>
            Split(b1, b2) == TestJmp(b1.t, b1.b1, Split(b1.b2, b2), b1.x, End)
    ensures b1.Union? ==> Split(b1, b2) == Union(b1.ot, b1.aux, b1.first, b1.more, b1.m, Split(b1.els, b2), b1.x, End)
  {
  }

  /** One alternative split off. */
  lemma SeparateStep(c1: Code, c2: Code)
    requires FirstPart(c1) > 0
    ensures var sp := FirstPart(c1);
            var rest := SeparateParts(c1[sp..], c2);
            && (c1[sp - 1].ICommit? || (c1[0].ICheck? && !Interfere(c1[0], ToCharset(c2))) ==>
                SeparateParts(c1, c2) == c1[..sp - 1] + [SetOffset(c1[sp - 1], 1 + |rest|)] + rest)
            && (c1[sp - 1].IJmp? && c1[0].ICheck? && Interfere(c1[0], ToCharset(c2)) && CheckSize(c1[0].ck) <= sp - 1
                ==> SeparateParts(c1, c2)
                    == [SetOffset(c1[0], c1[0].offset + 1)] + c1[1..CheckSize(c1[0].ck)]
                      + [IChoice(sp - CheckSize(c1[0].ck) + 1, 1)]
                       + c1[CheckSize(c1[0].ck)..sp - 1] + [ICommit(1 + |rest|)] + rest)
  {
    hide ToCharset, FirstPart, Interfere, BasicUnion, CheckSize;
    var sp := FirstPart(c1);
    var rest := SeparateParts(c1[sp..], c2);
    if c1[sp - 1].ICommit? || (c1[0].ICheck? && !Interfere(c1[0], ToCharset(c2))) {
      assert SeparateParts(c1, c2) == c1[..sp - 1] + [SetOffset(c1[sp - 1], 1 + |rest|)] + rest;
    }
  }

  /** The two ways to put new alternatives behind a test and its body. */
  lemma SplitTestWords(c1: Code, t: Check, f: Code, g: Code, rest: Code)
    requires c1 == Words(ICheck(t, CheckSize(t) + |f| + 1)) + f + [IJmp(1 + |g|)] + g
    ensures var sz := CheckSize(t); var sp := sz + |f| + 1;
            && c1[0] == ICheck(t, sp) && c1[sp - 1] == IJmp(1 + |g|) && c1[sp..] == g
            && c1[..sp - 1] + [SetOffset(c1[sp - 1], 1 + |rest|)] + rest == Words(ICheck(t, sp)) + f
              + [IJmp(1 + |rest|)] + rest
            && [SetOffset(c1[0], c1[0].offset + 1)] + c1[1..sz] + [IChoice(sp - sz + 1, 1)] + c1[sz..sp - 1]
              + [ICommit(1 + |rest|)] + rest
               == OtWords(Some(t), sz + 1 + |f| + 1) + [IChoice(1 + |f| + 1, 1)] + f + ([ICommit(1 + |rest|)] + rest)
  {
    var sz := CheckSize(t);
    var sp := sz + |f| + 1;
    var w := Words(ICheck(t, sp));
    assert c1[1..sz] == w[1..];
    assert c1[sz..sp - 1] == f;
    assert c1[..sp - 1] == w + f;
    assert Words(ICheck(t, sp + 1)) == [ICheck(t, sp + 1)] + w[1..];
  }

  lemma SplitUnion(b1: Block, b2: Block)
    requires b1.Union? && b1.k.End? && b1.x == 0
    requires FirstPart(Flat(b1)) == PartSize(b1) && SeparateParts(Flat(b1.els), Flat(b2)) == Flat(Split(b1.els, b2))
    ensures SeparateParts(Flat(b1), Flat(b2)) == Flat(Split(b1, b2))
  {
    hide Flat, ItemWords, MoreWords, ToCharset, FirstPart, SeparateParts, Split, OtWords, Interfere;
    SeparateStep(Flat(b1), Flat(b2));
    SplitStep(b1, b2);
    OtLength(b1.ot);
    var rest := Split(b1.els, b2);
    UnionFlat(b1.ot, b1.aux, b1.first, b1.more, b1.m, b1.els);
    UnionFlat(b1.ot, b1.aux, b1.first, b1.more, b1.m, rest);
    var body := Flat(b1.first) + MoreWords(Flat(b1.more), b1.m);
    var head := OtWords(b1.ot, OtSize(b1.ot) + 1 + |body| + 1) + [IChoice(1 + |body| + 1, b1.aux)] + body;
    CutCommit(Flat(b1), head, Flat(b1.els), Flat(rest));
  }

  lemma CutCommit(c1: Code, head: Code, g: Code, rest: Code)
    requires c1 == head + ([ICommit(1 + |g|)] + g)
    ensures var sp := |head| + 1;
            && c1[sp - 1] == ICommit(1 + |g|) && c1[sp..] == g
            && c1[..sp - 1] + [SetOffset(c1[sp - 1], 1 + |rest|)] + rest == head + ([ICommit(1 + |rest|)] + rest)
  {
    assert c1[..|head|] == head;
  }

  // ---- the block means ordered choice ----

  function OrElse(r: Res, b: Block, x: Subject, i: int, caps: seq<Capture>): Res
    requires 0 <= i <= |x.s|
  {
    if r.Fail? then EvalB(b, x, i, caps) else r
  }

  lemma {:induction false} AvoidsFails(cs: Charset, b: Block, x: Subject, i: int, caps: seq<Capture>)
    requires 0 <= i < |x.s| && x.s[i] in cs && Avoids(cs, b) && Shape(b)
    ensures EvalB(b, x, i, caps) == Fail
  {
    hide EvalItem;
    match b
    case Prim(c, _) =>
      assert !Passes(c.ck, x.s, i);
      PrimItem(b, x, i, caps);
    case TestJmp(t, _, b2, _, _) =>
      AvoidsFails(cs, b2, x, i, caps);
      TestElse(b, x, i, caps);
    case Union(ot, _, _, _, _, els, _, _) =>
      AvoidsFails(cs, els, x, i, caps);
      UnionElse(b, x, i, caps);
  }

  lemma PrimItem(b: Block, x: Subject, i: int, caps: seq<Capture>)
    requires b.Prim? && 0 <= i <= |x.s|
    ensures EvalItem(b, x, i, caps) == EvalPrim(b.i, x, i, caps)
  {
  }

  lemma TestElse(b: Block, x: Subject, i: int, caps: seq<Capture>)
    requires b.TestJmp? && 0 <= i <= |x.s| && !Passes(b.t, x.s, i)
    ensures EvalItem(b, x, i, caps) == EvalB(b.b2, x, i, caps)
  {
  }

  lemma UnionElse(b: Block, x: Subject, i: int, caps: seq<Capture>)
    requires b.Union? && 0 <= i <= |x.s| && !OtPasses(b.ot, x, i)
    ensures EvalItem(b, x, i, caps) == EvalB(b.els, x, i, caps)
  {
  }

  /** A block of one item. */
  lemma Alone(b: Block, x: Subject, i: int, caps: seq<Capture>)
    requires !b.End? && b.k.End? && 0 <= i <= |x.s|
    ensures EvalB(b, x, i, caps) == EvalItem(b, x, i, caps)
  {
  }

  lemma CheckThen(b: Block, x: Subject, i: int, caps: seq<Capture>)
    requires StartsWithCheck(b) && 0 <= i <= |x.s|
    ensures EvalB(b, x, i, caps) == if Passes(b.i.ck, x.s, i) then EvalB(b.k, x, i + CheckStep(b.i.ck), caps) else Fail
  {
  }

  lemma ChooseEval(b1: Block, b2: Block, x: Subject, i: int, caps: seq<Capture>)
    requires 0 <= i <= |x.s|
    ensures EvalB(Choose(b1, b2), x, i, caps) == OrElse(EvalB(b1, x, i, caps), b2, x, i, caps)
  {
    hide EvalB;
    Alone(Choose(b1, b2), x, i, caps);
    if StartsWithCheck(b1) {
      CheckThen(b1, x, i, caps);
    }
  }

  /** A test with its body, and another block where the test fails, mean the choice between the two. */
  lemma TestEval(t: Check, f1: Block, b2: Block, x: Subject, i: int, caps: seq<Capture>)
    requires 0 <= i <= |x.s| && GoodCheck(t) && Shape(b2) && (NoFail(f1) || Avoids(StartSet(t), b2))
    ensures EvalB(TestJmp(t, f1, b2, 0, End), x, i, caps)
         == OrElse(if Passes(t, x.s, i) then EvalB(f1, x, i + CheckStep(t), caps) else Fail, b2, x, i, caps)
  {
    hide EvalB, Shape, Avoids;
    Alone(TestJmp(t, f1, b2, 0, End), x, i, caps);
    if Passes(t, x.s, i) {
      if NoFail(f1) {
        NoFailOk(f1, x, i + CheckStep(t), caps);
      } else {
        PassStart(t, x, i);
        AvoidsFails(StartSet(t), b2, x, i, caps);
      }
    }
  }

  lemma JoinEval(b1: Block, b2: Block, x: Subject, i: int, caps: seq<Capture>)
    requires Shape(b1) && Shape(b2) && 0 <= i <= |x.s|
    ensures EvalB(Join(b1, b2), x, i, caps) == OrElse(EvalB(b1, x, i, caps), b2, x, i, caps)
  {
    hide EvalB;
    if IsCharsetBlock(b1) && IsCharsetBlock(b2) {
      CheckThen(b1, x, i, caps);
      CheckThen(b2, x, i, caps);
      CheckThen(Join(b1, b2), x, i, caps);
    } else if StartsWithCheck(b1) && (NoFail(b1.k) || (StartsWithCheck(b2) && StartSet(b1.i.ck) !! StartSet(b2.i.ck))) {
      CheckThen(b1, x, i, caps);
      TestEval(b1.i.ck, b1.k, b2, x, i, caps);
    } else {
      ChooseEval(b1, b2, x, i, caps);
    }
  }

  lemma {:induction false} SplitAvoids(cs: Charset, b1: Block, b2: Block)
    requires Avoids(cs, b1) && StartsWithCheck(b2) && StartSet(b2.i.ck) !! cs
    ensures Avoids(cs, Split(b1, b2))
  {
    match b1
    case TestJmp(_, _, f2, _, End) => SplitAvoids(cs, f2, b2);
    case Union(_, _, _, _, _, els, _, End) => SplitAvoids(cs, els, b2);
    case _ =>
  }

  lemma {:induction false} SplitSoft(b1: Block, b2: Block)
    requires SoftElse(b1)
    ensures SoftElse(Split(b1, b2))
  {
  }

  lemma SoftOk(b: Block, x: Subject, i: int, caps: seq<Capture>)
    requires SoftElse(b) && 0 <= i <= |x.s|
    ensures EvalB(b, x, i, caps) == Ok(i, caps)
  {
    if !b.End? {
      Alone(b, x, i, caps);
      assert EvalB(End, x, i, caps) == Ok(i, caps);
    }
  }

  /**
    Where a new last alternative of b is tried when b starts at position i, if it is tried at
    all.  A test that is turned back into a choice makes it step back by one byte only.
   */
  function Tried(b: Block, x: Subject, i: int): (r: Option<int>)
    requires 0 <= i <= |x.s| && Shape(b)
    ensures r.Some? ==> i <= r.value <= |x.s|
    decreases b
  {
    match b
    case TestJmp(t, f1, f2, _, End) =>
      if !Passes(t, x.s, i) then Tried(f2, x, i)
      else if EvalB(f1, x, i + CheckStep(t), []).Fail? then Tried(f2, x, i + CheckStep(t) - 1)
      else None
    case Union(ot, aux, first, _, _, els, _, End) =>
      if !OtPasses(ot, x, i) then Tried(els, x, i)
      else if EvalB(first, x, i + OtStep(ot), []).Fail? then Tried(els, x, i + OtStep(ot) - aux)
      else None
    case _ => if EvalB(b, x, i, []).Fail? then Some(i) else None
  }

  lemma {:induction false} AvoidsTried(cs: Charset, b: Block, x: Subject, i: int)
    requires 0 <= i < |x.s| && x.s[i] in cs && Avoids(cs, b) && Shape(b)
    ensures Tried(b, x, i) == Some(i)
    decreases b
  {
    hide EvalB;
    match b
    case Prim(_, _) => AvoidsFails(cs, b, x, i, []);
    case TestJmp(_, _, b2, _, _) => AvoidsTried(cs, b2, x, i);
    case Union(_, _, _, _, _, els, _, _) => AvoidsTried(cs, els, x, i);
  }

  /** Behind a test that has passed and a body that has failed, no other old alternative matches. */
  lemma RestAvoids(b: Block, x: Subject, i: int)
    requires b.TestJmp? && b.k.End? && Shape(b) && Valid(b, 0) && Spine(b) && 0 <= i <= |x.s| && Passes(b.t, x.s, i)
    requires EvalB(b.b1, x, i + CheckStep(b.t), []).Fail?
    ensures var j := i + CheckStep(b.t) - 1;
            i <= j < |x.s| && Tried(b.b2, x, j) == Some(j) && x.s[j] in StartSet(b.t) && Avoids(StartSet(b.t), b.b2)
              && (!b.t.Any? ==> j == i)
  {
    hide EvalB, Tried, Shape, Valid, Spine, Avoids;
    SpineParts(b);
    if NoFail(b.b1) { NoFailOk(b.b1, x, i + CheckStep(b.t), []); }
    PassStart(b.t, x, i);
    AvoidsTried(StartSet(b.t), b.b2, x, i + CheckStep(b.t) - 1);
  }

  /** A new alternative is tried exactly where all the old ones fail. */
  lemma {:induction false} TriedFails(b: Block, x: Subject, i: int)
    requires Shape(b) && Valid(b, 0) && Spine(b) && 0 <= i <= |x.s|
    ensures Tried(b, x, i).Some? <==> EvalB(b, x, i, []).Fail?
    decreases b
  {
    hide EvalB, Valid, Spine;
    if (b.TestJmp? || b.Union?) && b.k.End? {
      SpineParts(b);
      Alone(b, x, i, []);
      if b.TestJmp? {
        if !Passes(b.t, x.s, i) {
          TriedFails(b.b2, x, i);
        } else if EvalB(b.b1, x, i + CheckStep(b.t), []).Fail? {
          RestAvoids(b, x, i);
        }
      } else {
        TriedUnion(b, x, i);
      }
    }
  }

  lemma {:induction false} TriedUnion(b: Block, x: Subject, i: int)
    requires b.Union? && b.k.End? && Shape(b) && Valid(b.els, 0) && Spine(b.els) && 0 <= i <= |x.s|
    ensures Tried(b, x, i).Some? <==> EvalItem(b, x, i, []).Fail?
    decreases b, 0
  {
    hide EvalB, EvalMore, Valid, Spine;
    if !OtPasses(b.ot, x, i) {
      TriedFails(b.els, x, i);
    } else {
      var r := EvalB(b.first, x, i + OtStep(b.ot), []);
      if r.Fail? {
        TriedFails(b.els, x, i + OtStep(b.ot) - b.aux);
      } else if r.Ok? {
        SplitMore(b, End, b.m, x, r.j, r.caps);
      }
    }
  }

  /** What the union with b2 does: b2 where it is tried, and else what b1 does. */
  function Retried(b1: Block, b2: Block, x: Subject, i: int, caps: seq<Capture>): Res
    requires 0 <= i <= |x.s| && Shape(b1)
  {
    match Tried(b1, x, i)
    case Some(j) => EvalB(b2, x, j, caps)
    case None => EvalB(b1, x, i, caps)
  }

  /** The meaning of a union for every two operands, right or wrong. */
  lemma {:induction false} SplitEval(b1: Block, b2: Block, x: Subject, i: int, caps: seq<Capture>)
    requires Shape(b1) && Valid(b1, 0) && Spine(b1) && Shape(b2) && 0 <= i <= |x.s|
    ensures EvalB(Split(b1, b2), x, i, caps) == Retried(b1, b2, x, i, caps)
    decreases b1
  {
    hide EvalB, Valid, Spine, Tried;
    if b1.TestJmp? && b1.k.End? {
      SplitTestEval(b1, b2, x, i, caps);
    } else if b1.Union? && b1.k.End? {
      SpineParts(b1);
      SplitUnionEval(b1, b2, x, i, caps);
    } else {
      JoinEval(b1, b2, x, i, caps);
      TriedWhole(b1, x, i);
      Blind(b1, x, i, [], caps);
    }
  }

  lemma TriedWhole(b: Block, x: Subject, i: int)
    requires !((b.TestJmp? || b.Union?) && b.k.End?) && Shape(b) && 0 <= i <= |x.s|
    ensures Tried(b, x, i) == if EvalB(b, x, i, []).Fail? then Some(i) else None
  {
  }

  lemma TriedTest(b: Block, x: Subject, i: int)
    requires b.TestJmp? && b.k.End? && Shape(b) && 0 <= i <= |x.s|
    ensures Tried(b, x, i) ==
            if !Passes(b.t, x.s, i) then Tried(b.b2, x, i)
            else if EvalB(b.b1, x, i + CheckStep(b.t), []).Fail? then Tried(b.b2, x, i + CheckStep(b.t) - 1)
            else None
  {
  }

  lemma {:induction false} SplitTestEval(b1: Block, b2: Block, x: Subject, i: int, caps: seq<Capture>)
    requires b1.TestJmp? && b1.k.End? && Shape(b1) && Valid(b1, 0) && Spine(b1) && Shape(b2) && 0 <= i <= |x.s|
    ensures EvalB(Split(b1, b2), x, i, caps) == Retried(b1, b2, x, i, caps)
    decreases b1, 0
  {
    hide EvalB, Shape, Valid, Spine, Avoids, Tried;
    SpineParts(b1);
    SplitStep(b1, b2);
    var t, f1, f2 := b1.t, b1.b1, b1.b2;
    Alone(Split(b1, b2), x, i, caps);
    Alone(b1, x, i, caps);
    TriedTest(b1, x, i);
    if !Passes(t, x.s, i) {
      SplitEval(f2, b2, x, i, caps);
    } else {
      Blind(f1, x, i + CheckStep(t), [], caps);
      if EvalB(f1, x, i + CheckStep(t), []).Fail? {
        var j := i + CheckStep(t) - 1;
        RestAvoids(b1, x, i);
        SplitEval(f2, b2, x, j, caps);
        if !MayInterfere(t, b2) { StartFails(t, b2, x, i, caps); }
      }
    }
  }

  /** A block that starts with a check outside the test fails where the test passes. */
  lemma StartFails(t: Check, b2: Block, x: Subject, i: int, caps: seq<Capture>)
    requires !MayInterfere(t, b2) && Shape(b2) && 0 <= i < |x.s| && x.s[i] in StartSet(t)
    ensures EvalB(b2, x, i, caps) == Fail
  {
    hide EvalB;
    CheckThen(b2, x, i, caps);
    CheckOk(b2);
    if Passes(b2.i.ck, x.s, i) { PassStart(b2.i.ck, x, i); }
  }

  lemma CheckOk(b: Block)
    requires StartsWithCheck(b) && Shape(b)
    ensures GoodCheck(b.i.ck)
  {
  }

  lemma TriedOfUnion(b: Block, x: Subject, i: int)
    requires b.Union? && b.k.End? && Shape(b) && 0 <= i <= |x.s|
    ensures b.aux <= OtStep(b.ot) && (b.m > 0 ==> SoftElse(b.els))
    ensures Tried(b, x, i) ==
            if !OtPasses(b.ot, x, i) then Tried(b.els, x, i)
            else if EvalB(b.first, x, i + OtStep(b.ot), []).Fail? then Tried(b.els, x, i + OtStep(b.ot) - b.aux)
            else None
  {
  }

  lemma {:induction false} SplitUnionEval(b1: Block, b2: Block, x: Subject, i: int, caps: seq<Capture>)
    requires b1.Union? && b1.k.End? && b1.x == 0 && Shape(b1) && Shape(b1.els) && Valid(b1.els, 0) && Spine(b1.els)
    requires Shape(b2) && 0 <= i <= |x.s|
    ensures EvalB(Split(b1, b2), x, i, caps) == Retried(b1, b2, x, i, caps)
    decreases b1, 0
  {
    hide EvalB, EvalMore, Shape, Valid, Spine, Tried;
    Alone(b1, x, i, caps);
    Alone(Split(b1, b2), x, i, caps);
    TriedOfUnion(b1, x, i);
    if !OtPasses(b1.ot, x, i) {
      SplitEval(b1.els, b2, x, i, caps);
    } else {
      var i1 := i + OtStep(b1.ot);
      Blind(b1.first, x, i1, [], caps);
      SplitEval(b1.els, b2, x, i1 - b1.aux, caps);
      var r := EvalB(b1.first, x, i1, caps);
      if r.Ok? { SplitMore(b1, b2, b1.m, x, r.j, r.caps); }
    }
  }

  lemma {:induction false} SplitMore(b1: Block, b2: Block, m: nat, x: Subject, i: int, caps: seq<Capture>)
    requires b1.Union? && b1.k.End? && (m > 0 ==> SoftElse(b1.els)) && 0 <= i <= |x.s|
    ensures EvalMore(Split(b1, b2), m, x, i, caps) == EvalMore(b1, m, x, i, caps)
    ensures !EvalMore(b1, m, x, i, caps).Fail?
    decreases m
  {
    hide EvalB;
    if m > 0 {
      SplitSoft(b1.els, b2);
      SoftOk(b1.els, x, i, caps);
      SoftOk(Split(b1.els, b2), x, i, caps);
      var r := EvalB(b1.more, x, i, caps);
      if r.Ok? { SplitMore(b1, b2, m - 1, x, r.j, r.caps); }
    }
  }

  // ---- the block is one that the builders make ----

  lemma {:induction false} ValidUp(b: Block, d: nat)
    requires Valid(b, 0)
    ensures Valid(b, d)
    decreases b
  {
    match b
    case End =>
    case Prim(_, k) => ValidUp(k, d);
    case TestJmp(_, _, b2, x, k) => ValidUp(k, d); ValidUp(b2, ItemSlide(k, d));
    case Union(_, _, _, _, _, els, x, k) => ValidUp(k, d); ValidUp(els, ItemSlide(k, d));
    case _ => ValidUp(b.k, d);
  }

  lemma PrimGood(i: Cell, k: Block)
    requires GoodPrim(i) && !(i.ICapture? && (i.op.OpenCap? || i.op.CloseCap?))
    requires Shape(k) && Balanced(k, 0) && Valid(k, 0) && Backed(k, i.ICheck?) && !i.IBack?
    ensures Good(Prim(i, k))
  {
  }

  lemma JoinGood(b1: Block, b2: Block)
    requires Good(b1) && Good(b2)
    ensures Good(Join(b1, b2))
  {
    if IsCharsetBlock(b1) && IsCharsetBlock(b2) {
      PrimGood(ICheck(Set(StartSet(b1.i.ck) + StartSet(b2.i.ck)), 0), End);
    } else if StartsWithCheck(b1) && (NoFail(b1.k) || (StartsWithCheck(b2) && StartSet(b1.i.ck) !! StartSet(b2.i.ck))) {
      TestGood(b1, b2);
    } else {
      ChooseGood(b1, b2);
    }
  }

  lemma TestGood(b1: Block, b2: Block)
    requires Good(b1) && Good(b2) && StartsWithCheck(b1)
    requires NoFail(b1.k) || (StartsWithCheck(b2) && StartSet(b1.i.ck) !! StartSet(b2.i.ck))
    ensures Good(TestJmp(b1.i.ck, b1.k, b2, 0, End))
  {
    TestJmpGood(b1.i.ck, b1.k, b2);
  }

  lemma ChooseGood(b1: Block, b2: Block)
    requires Good(b1) && Good(b2)
    ensures Good(Choose(b1, b2))
  {
    hide Balanced, Valid, Shape, Spine;
    EndGood();
    GoodOf(b1);
    GoodOf(b2);
    if StartsWithCheck(b1) {
      CheckTail(b1);
      OneUnionGood(Some(b1.i.ck), CheckStep(b1.i.ck), b1.k, b2);
    } else {
      OneUnionGood(None, 0, b1, b2);
    }
  }

  lemma CheckTail(b: Block)
    requires StartsWithCheck(b) && Good(b)
    ensures Shape(b.k) && Balanced(b.k, 0) && Valid(b.k, 0) && GoodCheck(b.i.ck) && Backed(b.k, true)
  {
  }

  lemma OneUnionGood(ot: Option<Check>, aux: nat, first: Block, els: Block)
    requires Shape(first) && Balanced(first, 0) && Valid(first, 0) && Backed(first, ot.Some?) && Good(els) && Good(End)
    requires (ot.Some? ==> GoodCheck(ot.value)) && aux <= OtStep(ot)
    ensures Good(Union(ot, aux, first, End, 0, els, 0, End))
  {
  }

  lemma {:induction false} SplitGood(b1: Block, b2: Block)
    requires Good(b1) && Good(b2)
    ensures Good(Split(b1, b2))
    decreases b1
  {
    hide Flat, Shape, Valid, Balanced, Spine;
    if (b1.TestJmp? || b1.Union?) && b1.k.End? {
      GoodAlternative(b1);
      if b1.TestJmp? {
        SplitGood(b1.b2, b2);
        SplitTestGood(b1, b2);
      } else {
        SplitGood(b1.els, b2);
        SplitUnionGood(b1, b2);
      }
    } else {
      JoinGood(b1, b2);
    }
  }

  lemma GoodAlternative(b: Block)
    requires Good(b) && (b.TestJmp? || b.Union?) && b.k.End?
    ensures b.TestJmp? ==> Good(b.b2)
    ensures b.Union? ==> Good(b.els)
  {
  }

  lemma SplitTestGood(b1: Block, b2: Block)
    requires Good(b1) && b1.TestJmp? && b1.k.End? && Good(Split(b1.b2, b2)) && Shape(b2)
    ensures Good(Split(b1, b2))
  {
    hide Flat, Avoids, Split, Shape, Balanced, Valid, Spine;
    var rest := Split(b1.b2, b2);
    SpineParts(b1);
    SplitStep(b1, b2);
    BodyBalanced(b1);
    if MayInterfere(b1.t, b2) {
      RevertGood(b1.t, b1.b1, rest);
    } else {
      if !NoFail(b1.b1) { SplitAvoids(StartSet(b1.t), b1.b2, b2); }
      SplitStarts(b1.b2, b2);
      TestJmpGood(b1.t, b1.b1, rest);
    }
  }

  lemma SplitStarts(b1: Block, b2: Block)
    ensures StartsWithTest(b1) ==> StartsWithTest(Split(b1, b2))
  {
  }

  lemma BodyBalanced(b: Block)
    requires b.TestJmp? && Balanced(b, 0) && Backed(b, false)
    ensures Balanced(b.b1, 0) && Backed(b.b1, true) && (StartsWithBack(b.b1) ==> StartsWithTest(b.b2))
  {
  }

  lemma RevertGood(t: Check, f1: Block, f2: Block)
    requires Shape(f1) && Valid(f1, 0) && Balanced(f1, 0) && Backed(f1, true) && Good(f2) && GoodCheck(t)
    ensures Good(Union(Some(t), 1, f1, End, 0, f2, 0, End))
  {
    EndGood();
    OneUnionGood(Some(t), 1, f1, f2);
  }

  lemma TestJmpGood(t: Check, f1: Block, f2: Block)
    requires Shape(f1) && Valid(f1, 0) && Balanced(f1, 0) && Backed(f1, true) && Good(f2) && GoodCheck(t)
    requires (NoFail(f1) || Avoids(StartSet(t), f2)) && (StartsWithBack(f1) ==> StartsWithTest(f2))
    ensures Good(TestJmp(t, f1, f2, 0, End))
  {
    hide Flat;
    ValidUp(f1, 1 + |Flat(f2)| + 0);
    EndGood();
    assert ItemSlide(End, 0) == 0;
    assert Shape(TestJmp(t, f1, f2, 0, End));
    assert Balanced(TestJmp(t, f1, f2, 0, End), 0);
    assert Valid(TestJmp(t, f1, f2, 0, End), 0);
  }

  lemma EndGood()
    ensures Good(End)
  {
  }

  lemma SplitUnionGood(b1: Block, b2: Block)
    requires Good(b1) && b1.Union? && b1.k.End? && Good(Split(b1.els, b2))
    ensures Good(Split(b1, b2))
  {
    SpineParts(b1);
    if SoftElse(b1.els) { SplitSoft(b1.els, b2); }
  }
}
