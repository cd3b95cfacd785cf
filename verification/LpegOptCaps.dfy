/** optimizecaptures on code is a reordering of straight instructions in the block behind it. */
module LpegOptCaps {
  import opened LpegCode
  import opened LpegMachine
  import opened LpegPeg
  import opened LpegBlock
  import opened LpegExec
  import opened LpegRun
  import opened LpegBuild
  import opened LpegShape

  // ---- jumping items are passed over ----

  function Max(a: int, b: int): int {
    if a > b then a else b
  }

  /** A jump only raises the limit. */
  lemma PassJump(c: Code, i: nat, limit: int)
    requires i < |c| && IsJmp(c[i])
    ensures OptCapsFrom(c, i, limit) == OptCapsFrom(c, i + Size(c[i]), Max(limit, i + c[i].offset + 1))
  {
  }

  /** Below the limit nothing moves. */
  lemma PassBelow(c: Code, i: nat, limit: int)
    requires i < |c| && !IsJmp(c[i]) && i < limit
    ensures OptCapsFrom(c, i, limit) == OptCapsFrom(c, i + Size(c[i]), limit)
  {
  }

  /** Words of a block that lies below the limit, whose jumps lead at most d beyond its end. */
  lemma {:induction false} PassBlock(c: Code, p: nat, b: Block, d: nat, limit: int) returns (l2: int)
    requires Sub(c, p, Flat(b)) && Shape(b) && Valid(b, d) && limit >= p + |Flat(b)|
    ensures OptCapsFrom(c, p, limit) == OptCapsFrom(c, p + |Flat(b)|, l2)
    ensures limit <= l2 <= Max(limit, p + |Flat(b)| + d + 1)
    decreases b, 2
  {
    hide Flat, ItemWords, OptCapsFrom, ItemAt;
    l2 := limit;
    if b.End? {
      NoWords();
    } else {
      FlatSplit(c, p, b);
      var z := p + |ItemWords(b)|;
      if b.Prim? {
        PrimWords(b);
        SubAt(c, p, Words(b.i), 0);
        PassBelow(c, p, limit);
      } else {
        Layout(c, p, b);
        l2 := PassItem(c, p, z, b, d, limit);
        TailOk2(b, d);
      }
      l2 := PassBlock(c, z, b.k, d, l2);
      if b.k.End? { NoWords(); }
    }
  }

  lemma TailOk2(b: Block, d: nat)
    requires !b.End? && Shape(b) && Valid(b, d)
    ensures Shape(b.k) && Valid(b.k, d)
  {
  }

  lemma PrimWords(b: Block)
    requires b.Prim?
    ensures ItemWords(b) == Words(b.i)
  {
  }

  /** An item in which every word lies below a jump target of the item itself. */
  lemma {:induction false} PassItem(c: Code, p: nat, z: int, b: Block, d: nat, limit: int) returns (l2: int)
    requires !b.End? && !b.Prim? && ItemAt(c, p, z, b) && Shape(b) && Valid(b, d)
    ensures 0 <= z <= |c| && OptCapsFrom(c, p, limit) == OptCapsFrom(c, z, l2)
    ensures limit <= l2 <= Max(limit, z + ItemSlide(b.k, d) + 1) && l2 > z
    decreases b, 1
  {
    hide Flat, ItemWords;
    match b
    case TestJmp(_, _, _, _, _) => l2 := PassTestJmp(c, p, z, b, d, limit);
    case Union(_, _, _, _, _, _, _, _) => l2 := PassUnion(c, p, z, b, d, limit);
    case Not(_, _, _, _) => l2 := PassNot(c, p, z, b, d, limit);
    case NotHead(t, b1, x, _) => l2 := PassHead(c, p, z, t, b1, x, IFail, b, d, limit);
    case And(_, _, _) => l2 := PassAnd(c, p, z, b, d, limit);
    case Loop(_, _, _) => l2 := PassLoop(c, p, z, b, d, limit);
    case LoopHead(t, b1, x, _) => l2 := PassHead(c, p, z, t, b1, x, IJmp(-(CheckSize(t) + |Flat(b1)|)), b, d, limit);
    case OptHead(_, _, n, _, _) => l2 := PassOpts(c, p, z, b, n, d, limit);
  }

  lemma {:induction false} PassTestJmp(c: Code, p: nat, z: int, b: Block, d: nat, limit: int) returns (l2: int)
    requires b.TestJmp? && ItemAt(c, p, z, b) && Shape(b) && Valid(b, d)
    ensures 0 <= z <= |c| && OptCapsFrom(c, p, limit) == OptCapsFrom(c, z, l2)
    ensures limit <= l2 <= Max(limit, z + ItemSlide(b.k, d) + 1) && l2 > z
    decreases b, 0
  {
    hide Flat, ItemWords, OptCapsFrom;
    var p1 := p + CheckSize(b.t);
    var q := p1 + |Flat(b.b1)|;
    PassJump(c, p, limit);
    l2 := PassBlock(c, p1, b.b1, 1 + |Flat(b.b2)| + b.x, Max(limit, q + 1 + Exit(b.b2, b.x) + 1));
    PassJump(c, q, l2);
    l2 := PassBlock(c, q + 1, b.b2, ItemSlide(b.k, d), Max(l2, z + b.x + 1));
  }

  lemma {:induction false} PassHead(c: Code, p: nat, z: int, t: Check, b1: Block, x: nat, last: Cell, b: Block, d: nat,
      limit: int) returns (l2: int)
    requires HeadAt(c, p, z, t, z + x, Flat(b1), last) && (last.IFail? || last.IJmp?)
             && (IsJmp(last) ==> last.offset < 0)
    requires !b.End? && b1 < b && Shape(b1) && Valid(b1, 0) && GoodExit(x, b.k, d)
    ensures 0 <= z <= |c| && OptCapsFrom(c, p, limit) == OptCapsFrom(c, z, l2)
    ensures limit <= l2 <= Max(limit, z + ItemSlide(b.k, d) + 1) && l2 > z
    decreases b, 0
  {
    hide Flat, ItemWords, OptCapsFrom;
    PassJump(c, p, limit);
    l2 := PassBlock(c, p + CheckSize(t), b1, 0, Max(limit, z + x + 1));
    if IsJmp(last) { PassJump(c, z - 1, l2); } else { PassBelow(c, z - 1, l2); }
  }

  lemma {:induction false} PassNot(c: Code, p: nat, z: int, b: Block, d: nat, limit: int) returns (l2: int)
    requires b.Not? && ItemAt(c, p, z, b) && Shape(b) && Valid(b, d)
    ensures 0 <= z <= |c| && OptCapsFrom(c, p, limit) == OptCapsFrom(c, z, l2)
    ensures limit <= l2 <= Max(limit, z + ItemSlide(b.k, d) + 1) && l2 > z
    decreases b, 0
  {
    hide Flat, ItemWords, OptCapsFrom;
    var p0 := p + OtSize(b.ot);
    l2 := limit;
    if b.ot.Some? {
      PassJump(c, p, limit);
      l2 := Max(limit, z + b.x + 1);
    }
    PassJump(c, p0, l2);
    l2 := PassBlock(c, p0 + 1, b.b, 0, Max(l2, z + b.x + 1));
    PassBelow(c, z - 1, l2);
  }

  lemma {:induction false} PassAnd(c: Code, p: nat, z: int, b: Block, d: nat, limit: int) returns (l2: int)
    requires b.And? && ItemAt(c, p, z, b) && Shape(b) && Valid(b, d)
    ensures 0 <= z <= |c| && OptCapsFrom(c, p, limit) == OptCapsFrom(c, z, l2)
    ensures limit <= l2 <= Max(limit, z + ItemSlide(b.k, d) + 1) && l2 > z
    decreases b, 0
  {
    hide Flat, ItemWords, OptCapsFrom;
    PassJump(c, p, limit);
    l2 := PassBlock(c, p + 1, b.b, 0, Max(limit, z - 1 + 1));
    PassJump(c, z - 2, l2);
    l2 := Max(l2, z + b.x + 1);
    PassBelow(c, z - 1, l2);
  }

  lemma {:induction false} PassLoop(c: Code, p: nat, z: int, b: Block, d: nat, limit: int) returns (l2: int)
    requires b.Loop? && ItemAt(c, p, z, b) && Shape(b) && Valid(b, d)
    ensures 0 <= z <= |c| && OptCapsFrom(c, p, limit) == OptCapsFrom(c, z, l2)
    ensures limit <= l2 <= Max(limit, z + ItemSlide(b.k, d) + 1) && l2 > z
    decreases b, 0
  {
    hide Flat, ItemWords, OptCapsFrom;
    PassJump(c, p, limit);
    l2 := PassBlock(c, p + 1, b.b, 0, Max(limit, z + b.x + 1));
    if IsJmp(c[z - 1]) { PassJump(c, z - 1, l2); } else { PassBelow(c, z - 1, l2); }
  }

  lemma {:induction false} PassOpts(c: Code, q: nat, z: int, b: Block, n: nat, d: nat, limit: int) returns (l2: int)
    requires b.OptHead? && Shape(b) && Valid(b, d)
    requires Sub(c, q, OptWords(b.t, Flat(b.b), n, b.x)) && q + |OptWords(b.t, Flat(b.b), n, b.x)| == z
    requires n == 0 ==> limit > z
    ensures 0 <= z <= |c| && OptCapsFrom(c, q, limit) == OptCapsFrom(c, z, l2)
    ensures limit <= l2 <= Max(limit, z + ItemSlide(b.k, d) + 1) && l2 > z
    decreases b, 0, n
  {
    hide Flat, ItemWords, OptCapsFrom;
    l2 := limit;
    if n > 0 {
      OptLayout(c, z, b.t, Flat(b.b), n, b.x, q);
      PassJump(c, q, limit);
      var p1 := q + CheckSize(b.t);
      l2 := PassBlock(c, p1, b.b, 0, Max(limit, z + b.x + 1));
      l2 := PassOpts(c, p1 + |Flat(b.b)|, z, b, n - 1, d, l2);
    }
  }

  lemma UnionInside(c: Code, p: nat, z: int, b: Block, d: nat)
    requires b.Union? && ItemAt(c, p, z, b) && Shape(b) && Valid(b, d)
    ensures var pe := z - |Flat(b.els)|; var p0 := p + OtSize(b.ot); var out := pe + Exit(b.els, b.x);
            && Shape(b.first) && Valid(b.first, 0) && GoodExit(b.x, b.k, d) && Sub(c, p0 + 1, Flat(b.first))
            && p <= p0 < p0 + 1 + |Flat(b.first)| < pe <= z <= |c| && out >= pe
  {
    hide Flat, ItemWords;
  }

  lemma {:induction false} PassUnion(c: Code, p: nat, z: int, b: Block, d: nat, limit: int) returns (l2: int)
    requires b.Union? && ItemAt(c, p, z, b) && Shape(b) && Valid(b, d)
    ensures 0 <= z <= |c| && OptCapsFrom(c, p, limit) == OptCapsFrom(c, z, l2)
    ensures limit <= l2 <= Max(limit, z + ItemSlide(b.k, d) + 1) && l2 > z
    decreases b, 0
  {
    hide Flat, ItemWords, OptCapsFrom, MoreWords, Sub, MorePlaced, Shape, Valid;
    UnionInside(c, p, z, b, d);
    var p0 := p + OtSize(b.ot);
    var pe := z - |Flat(b.els)|;
    var out := pe + Exit(b.els, b.x);
    l2 := limit;
    if b.ot.Some? {
      PassJump(c, p, limit);
      l2 := Max(limit, out + 1);
    }
    PassJump(c, p0, l2);
    l2 := PassBlock(c, p0 + 1, b.first, 0, Max(l2, out + 1));
    l2 := PassMore(c, p0 + 1 + |Flat(b.first)|, z, b, b.m, d, l2);
  }

  lemma {:induction false} PassMore(c: Code, q: nat, z: int, b: Block, m: nat, d: nat, limit: int) returns (l2: int)
    requires b.Union? && Shape(b) && Valid(b, d) && limit > z - |Flat(b.els)|
    requires MorePlaced(c, z, Flat(b.more), m, Flat(b.els), b.x, q)
    ensures 0 <= z <= |c| && OptCapsFrom(c, q, limit) == OptCapsFrom(c, z, l2)
    ensures limit <= l2 <= Max(limit, z + ItemSlide(b.k, d) + 1) && l2 > z
    decreases b, 0, m
  {
    hide Flat, ItemWords, OptCapsFrom;
    if m == 0 {
      PassJump(c, q, limit);
      l2 := PassBlock(c, q + 1, b.els, ItemSlide(b.k, d), Max(limit, z + b.x + 1));
    } else {
      MoreLayout(c, z, Flat(b.more), m, Flat(b.els), b.x, q);
      PassJump(c, q, limit);
      var q1 := q + 1 + |Flat(b.more)|;
      l2 := PassBlock(c, q + 1, b.more, 0, Max(limit, q + 2));
      l2 := PassMore(c, q1, z, b, m - 1, d, l2);
    }
  }

  // ---- the pass on blocks ----

  /** The instructions of g in front of b. */
  function PrimSeq(g: seq<Cell>, b: Block): Block {
    if g == [] then b else Prim(g[0], PrimSeq(g[1..], b))
  }

  function FlatSeq(g: seq<Cell>): Code {
    if g == [] then [] else Words(g[0]) + FlatSeq(g[1..])
  }

  function Items(b: Block): nat {
    if b.End? then 0 else 1 + Items(b.k)
  }

  /** The checks at the start of b that a correction of `budget` bytes can cross. */
  function Taken(b: Block, budget: int): seq<Cell> {
    if b.Prim? && b.i.ICheck? && CheckStep(b.i.ck) <= budget then
      [b.i] + Taken(b.k, budget - CheckStep(b.i.ck))
    else []
  }

  function Rest(b: Block, budget: int): (r: Block)
    ensures Items(r) <= Items(b)
  {
    if b.Prim? && b.i.ICheck? && CheckStep(b.i.ck) <= budget then Rest(b.k, budget - CheckStep(b.i.ck)) else b
  }

  function Bytes(g: seq<Cell>): nat {
    if g == [] then 0 else (if g[0].ICheck? then CheckStep(g[0].ck) else 0) + Bytes(g[1..])
  }

  function MaxOffOf(g: seq<Cell>): nat {
    if g == [] then 0
    else
      var off := if g[0].ICapture? then g[0].off else 0;
      var rest := MaxOffOf(g[1..]);
      if |g| == 1 then off else if off > rest then off else rest
  }

  /** Where the longest run of movable captures at the end of g starts. */
  function MovableFrom(g: seq<Cell>): (s: nat)
    ensures s <= |g|
    ensures forall j :: s <= j < |g| ==> IsMovableCap(g[j])
    ensures s > 0 ==> !IsMovableCap(g[s - 1])
  {
    if g == [] || !IsMovableCap(g[|g| - 1]) then |g| else MovableFrom(g[..|g| - 1])
  }

  function WithTail(b: Block, k: Block): Block
    requires !b.End?
  {
    b.(k := k)
  }

  /**
    The block after the pass: `pend` are the movable captures just before b, and `free`
    tells that the first word of b is not a jump target.
   */
  function MoveCaps(b: Block, pend: seq<Cell>, free: bool): Block
    decreases Items(b)
  {
    if b.End? then PrimSeq(pend, End)
    else if !b.Prim? then PrimSeq(pend, WithTail(b, MoveCaps(b.k, [], false)))
    else if !free || !IsMovableCap(b.i) then PrimSeq(pend, Prim(b.i, MoveCaps(b.k, [], true)))
    else
      var g := pend + [b.i];
      if !(b.k.Prim? && b.k.i.ICheck?) then MoveCaps(b.k, g, true)
      else
        var budget := MAX_OFF - MaxOffOf(g);
        var cks := Taken(b.k, budget);
        if cks == [] then PrimSeq(g, MoveCaps(b.k, [], true))
        else
          var l := Lift(g, Bytes(cks));
          var s := MovableFrom(l);
          PrimSeq(cks + l[..s], MoveCaps(Rest(b.k, budget), l[s..], true))
  }

  function MoveAll(b: Block): Block {
    MoveCaps(b, [], true)
  }

  // ---- facts about instruction lists ----

  lemma {:induction false} PrimSeqFlat(g: seq<Cell>, b: Block)
    ensures Flat(PrimSeq(g, b)) == FlatSeq(g) + Flat(b)
    decreases |g|
  {
    if g != [] {
      PrimSeqFlat(g[1..], b);
      assert Words(g[0]) + (FlatSeq(g[1..]) + Flat(b)) == (Words(g[0]) + FlatSeq(g[1..])) + Flat(b);
    } else {
      assert [] + Flat(b) == Flat(b);
    }
  }

  lemma {:induction false} PrimSeqJoin(g: seq<Cell>, h: seq<Cell>, b: Block)
    ensures PrimSeq(g + h, b) == PrimSeq(g, PrimSeq(h, b))
    decreases |g|
  {
    if g != [] {
      assert (g + h)[1..] == g[1..] + h;
      PrimSeqJoin(g[1..], h, b);
    } else {
      assert g + h == h;
    }
  }

  /** Captures take one word each. */
  lemma {:induction false} CapSeqFlat(g: seq<Cell>)
    requires forall j :: 0 <= j < |g| ==> g[j].ICapture?
    ensures FlatSeq(g) == g
    decreases |g|
  {
    if g != [] {
      CapSeqFlat(g[1..]);
      assert Words(g[0]) == [g[0]];
    }
  }

  lemma {:induction false} FlatSeqJoin(g: seq<Cell>, h: seq<Cell>)
    ensures FlatSeq(g + h) == FlatSeq(g) + FlatSeq(h)
    decreases |g|
  {
    if g != [] {
      assert (g + h)[1..] == g[1..] + h;
      FlatSeqJoin(g[1..], h);
    } else {
      assert g + h == h;
    }
  }

  lemma {:induction false} LiftCaps(g: seq<Cell>, n: nat)
    requires forall j :: 0 <= j < |g| ==> g[j].ICapture?
    ensures forall j :: 0 <= j < |g| ==> Lift(g, n)[j] == g[j].(off := g[j].off + n)
    decreases |g|
  {
    if g != [] {
      LiftCaps(g[1..], n);
      forall j | 0 <= j < |g| ensures Lift(g, n)[j] == g[j].(off := g[j].off + n) {
        if j > 0 { assert Lift(g, n)[j] == Lift(g[1..], n)[j - 1]; }
      }
    }
  }

  lemma {:induction false} TakenSplit(b: Block, budget: int)
    requires Shape(b)
    ensures b == PrimSeq(Taken(b, budget), Rest(b, budget)) && Shape(Rest(b, budget))
    ensures Bytes(Taken(b, budget)) <= (if budget > 0 then budget else 0)
    ensures forall j :: 0 <= j < |Taken(b, budget)| ==> var i := Taken(b, budget)[j]; IsFixCheck(i) && GoodCheck(i.ck)
    ensures Taken(b, budget) != [] ==> Bytes(Taken(b, budget)) > 0
    decreases b
  {
    if b.Prim? && b.i.ICheck? && CheckStep(b.i.ck) <= budget {
      TakenSplit(b.k, budget - CheckStep(b.i.ck));
    }
  }

  // ---- what the raw pass sees ----

  /** Nothing before the end of `done` can join a group. */
  ghost predicate Closed(done: Code, limit: int) {
    limit <= |done| && (|done| == limit || done == [] || !IsMovableCap(done[|done| - 1]))
  }

  lemma {:induction false} GroupStartIs(c: Code, done: Code, i: nat, limit: int)
    requires |done| <= i < |c| && c[..|done|] == done && Closed(done, limit)
    requires forall j :: |done| <= j < i ==> IsMovableCap(c[j])
    ensures GroupStart(c, i, limit) == |done|
    decreases i
  {
    if i > |done| {
      assert At(c, i - 1) == c[i - 1];
      GroupStartIs(c, done, i - 1, limit);
    } else if i > limit && i > 0 {
      assert At(c, i - 1) == c[..|done|][i - 1];
    }
  }

  lemma {:induction false} MaxOffIs(c: Code, start: nat, g: seq<Cell>)
    requires g != [] && Sub(c, start, g)
    requires forall j :: 0 <= j < |g| ==> g[j].ICapture?
    ensures MaxOff(c, start, start + |g| - 1) == MaxOffOf(g)
    decreases |g|
  {
    SubAt(c, start, g, 0);
    if |g| > 1 {
      SubSplit(c, start, g[..1], g[1..]) by { assert g == g[..1] + g[1..]; }
      MaxOffIs(c, start + 1, g[1..]);
    }
  }

  lemma {:induction false} SkipChecksIs(c: Code, p: nat, b: Block, budget: int)
    requires Sub(c, p, Flat(b)) && p + |Flat(b)| == |c| && Shape(b)
    ensures SkipChecks(c, p, budget) == (|FlatSeq(Taken(b, budget))|, Bytes(Taken(b, budget)))
    decreases b
  {
    if !b.End? {
      FlatSplit(c, p, b);
      CheckFirst(b);
      SubAt(c, p, Flat(b), 0) by { ItemHead(b); }
      if b.Prim? && b.i.ICheck? && CheckStep(b.i.ck) <= budget {
        PrimWords(b);
        SkipChecksIs(c, p + |Words(b.i)|, b.k, budget - CheckStep(b.i.ck));
      }
    }
  }

  /** Rearranging one group of captures and checks. */
  lemma MoveUpIs(done: Code, g: Code, ck: Code, rest: Code, n: nat)
    requires g != [] && |ck| > 0
    ensures MoveUp(done + g + ck + rest, |done|, |done| + |g| - 1, |done| + |g| - 1 + |ck|, n) == done + ck
            + Lift(g, n) + rest
  {
    var c := done + g + ck + rest;
    assert c[..|done|] == done;
    assert c[|done| + |g|..|done| + |g| + |ck|] == ck;
    assert c[|done|..|done| + |g|] == g;
    assert c[|done| + |g| + |ck|..] == rest;
  }

  /** The code in which `done` and `pend` are behind the pass and b is ahead. */
  function Scene(done: Code, pend: seq<Cell>, b: Block): Code {
    done + pend + Flat(b)
  }

  ghost predicate PassState(done: Code, pend: seq<Cell>, b: Block, limit: int, free: bool) {
    && Shape(b) && Valid(b, 0)
    && (forall j :: 0 <= j < |pend| ==> IsMovableCap(pend[j]))
    && (if free then Closed(done, limit) else pend == [] && limit == |done| + 1)
  }

  /** The raw pass turns the rest of the code into the words of MoveCaps. */
  lemma {:induction false} MoveCapsFlat(done: Code, b: Block, pend: seq<Cell>, limit: int, free: bool)
    requires PassState(done, pend, b, limit, free)
    ensures OptCapsFrom(Scene(done, pend, b), |done| + |pend|, limit) == done + Flat(MoveCaps(b, pend, free))
    decreases Items(b), 2
  {
    hide OptCapsFrom, Flat, ItemWords;
    if b.End? {
      MoveEnd(done, pend, limit);
    } else if !b.Prim? {
      MoveItem(done, b, pend, limit, free);
    } else if !free || !IsMovableCap(b.i) {
      MoveOther(done, b, pend, limit, free);
    } else if b.k.Prim? && b.k.i.ICheck? {
      MoveGroup(done, b, pend, limit);
    } else {
      MoveCap(done, b, pend, limit);
    }
  }

  lemma SceneStep(done: Code, pend: Code, w: Code, rest: Code)
    ensures done + pend + (w + rest) == (done + pend + w) + [] + rest
  {
  }

  lemma Regroup(done: Code, pend: Code, w: Code, rest: Code)
    ensures (done + pend + w) + rest == done + (pend + (w + rest))
  {
  }

  /** An instruction that neither jumps nor starts a move. */
  lemma PassPrim(c: Code, p: nat, limit: int)
    requires p < |c| && !IsJmp(c[p]) && (p < limit || !IsMovableCap(c[p]) || !IsFixCheck(At(c, p + 1)))
    ensures OptCapsFrom(c, p, limit) == OptCapsFrom(c, p + Size(c[p]), limit)
  {
  }

  lemma MoveEnd(done: Code, pend: seq<Cell>, limit: int)
    requires forall j :: 0 <= j < |pend| ==> IsMovableCap(pend[j])
    ensures OptCapsFrom(Scene(done, pend, End), |done| + |pend|, limit) == done + Flat(PrimSeq(pend, End))
  {
    PrimSeqFlat(pend, End);
    CapSeqFlat(pend);
    assert done + pend + [] == done + pend;
  }

  lemma JumpingSplit(b: Block)
    requires !b.End?
    ensures Flat(b) == ItemWords(b) + Flat(b.k)
  {
  }

  lemma JumpingTail(b: Block)
    requires !b.End? && !b.Prim? && Shape(b) && Valid(b, 0)
    ensures Shape(b.k) && Valid(b.k, 0) && Items(b.k) < Items(b) && |ItemWords(b)| > 0
  {
    ItemHead(b);
  }

  lemma MoveItemWords(b: Block, pend: seq<Cell>, free: bool)
    requires !b.End? && !b.Prim? && forall j :: 0 <= j < |pend| ==> IsMovableCap(pend[j])
    ensures Flat(MoveCaps(b, pend, free)) == pend + (ItemWords(b) + Flat(MoveCaps(b.k, [], false)))
  {
    var k2 := MoveCaps(b.k, [], false);
    SameWords(b, k2);
    PrimSeqFlat(pend, WithTail(b, k2));
    CapSeqFlat(pend);
  }

  lemma SameWords(b: Block, k: Block)
    requires !b.End?
    ensures ItemWords(WithTail(b, k)) == ItemWords(b)
  {
  }

  /** An item whose jumps end at its own end leaves the limit just behind it. */
  lemma {:induction false} MoveItem(done: Code, b: Block, pend: seq<Cell>, limit: int, free: bool)
    requires PassState(done, pend, b, limit, free) && !b.End? && !b.Prim?
    ensures OptCapsFrom(Scene(done, pend, b), |done| + |pend|, limit) == done + Flat(MoveCaps(b, pend, free))
    decreases Items(b), 1
  {
    hide OptCapsFrom, ItemAt, Flat, ItemWords, MoveCaps;
    var c := Scene(done, pend, b);
    var p := |done| + |pend|;
    var w := ItemWords(b);
    JumpingSplit(b);
    var z := p + |w|;
    var done2 := done + pend + w;
    SceneStep(done, pend, w, Flat(b.k));
    assert Sub(c, p, w) by { assert c == done2 + Flat(b.k); }
    Layout(c, p, b);
    var l2 := PassItem(c, p, z, b, 0, limit);
    JumpingTail(b);
    MoveCapsFlat(done2, b.k, [], l2, false);
    MoveItemWords(b, pend, free);
    Regroup(done, pend, w, Flat(MoveCaps(b.k, [], false)));
  }

  /** An instruction that is not a capture to move, or that is a jump target. */
  lemma {:induction false} MoveOther(done: Code, b: Block, pend: seq<Cell>, limit: int, free: bool)
    requires PassState(done, pend, b, limit, free) && b.Prim? && (!free || !IsMovableCap(b.i))
    ensures OptCapsFrom(Scene(done, pend, b), |done| + |pend|, limit) == done + Flat(MoveCaps(b, pend, free))
    decreases Items(b), 1
  {
    hide OptCapsFrom, Flat, ItemWords;
    var c := Scene(done, pend, b);
    var p := |done| + |pend|;
    PrimSplit(b);
    SceneStep(done, pend, Words(b.i), Flat(b.k));
    var done2 := done + pend + Words(b.i);
    assert c[p] == b.i;
    PassPrim(c, p, limit);
    LastWord(done + pend, b.i);
    MoveCapsFlat(done2, b.k, [], limit, true);
    var k2 := MoveCaps(b.k, [], true);
    MoveOtherWords(b.i, k2, pend);
    Regroup(done, pend, Words(b.i), Flat(k2));
  }

  lemma MoveOtherWords(i: Cell, k: Block, pend: seq<Cell>)
    requires forall j :: 0 <= j < |pend| ==> IsMovableCap(pend[j])
    ensures Flat(PrimSeq(pend, Prim(i, k))) == pend + (Words(i) + Flat(k))
  {
    PrimSeqFlat(pend, Prim(i, k));
    CapSeqFlat(pend);
  }

  /** The last word of an instruction is the instruction itself or a charset word. */
  lemma LastWord(done: Code, i: Cell)
    ensures var d := done + Words(i); d[|d| - 1] == i || d[|d| - 1] == CharsetWord
    ensures var d := done + Words(i); |d| == |done| + 1 ==> d[|d| - 1] == i
  {
  }

  lemma {:induction false} MoveCap(done: Code, b: Block, pend: seq<Cell>, limit: int)
    requires PassState(done, pend, b, limit, true) && b.Prim? && IsMovableCap(b.i) && !(b.k.Prim? && b.k.i.ICheck?)
    ensures OptCapsFrom(Scene(done, pend, b), |done| + |pend|, limit) == done + Flat(MoveCaps(b, pend, true))
    decreases Items(b), 1
  {
    hide OptCapsFrom, Flat, ItemWords;
    var c, p, g := Scene(done, pend, b), |done| + |pend|, pend + [b.i];
    PrimSplit(b);
    assert Words(b.i) == [b.i];
    assert c == done + g + Flat(b.k);
    CheckFirst(b.k);
    NextWord(done + g, b.k);
    PassPrim(c, p, limit);
    MoveCapsFlat(done, b.k, g, limit, true);
  }

  /** The instruction that follows `done` is the first one of b. */
  lemma NextWord(done: Code, b: Block)
    requires Shape(b)
    ensures At(done + Flat(b), |done|) == At(Flat(b), 0)
  {
    if !b.End? { ItemHead(b); }
  }

  /** A group of captures in front of a check. */
  lemma {:induction false} MoveGroup(done: Code, b: Block, pend: seq<Cell>, limit: int)
    requires PassState(done, pend, b, limit, true) && b.Prim? && IsMovableCap(b.i) && b.k.Prim? && b.k.i.ICheck?
    ensures OptCapsFrom(Scene(done, pend, b), |done| + |pend|, limit) == done + Flat(MoveCaps(b, pend, true))
    decreases Items(b), 1
  {
    hide OptCapsFrom, Flat, ItemWords;
    var g := pend + [b.i];
    if Taken(b.k, MAX_OFF - MaxOffOf(g)) == [] {
      MoveNothing(done, b, pend, limit);
    } else {
      MoveSome(done, b, pend, limit);
    }
  }

  /** What the raw pass computes about the group that ends with the capture b.i. */
  lemma GroupFacts(done: Code, b: Block, pend: seq<Cell>, limit: int)
    requires PassState(done, pend, b, limit, true) && b.Prim? && IsMovableCap(b.i) && b.k.Prim? && b.k.i.ICheck?
    ensures var c := Scene(done, pend, b); var p := |done| + |pend|; var g := pend + [b.i];
            var budget := MAX_OFF - MaxOffOf(g);
            && c == done + g + Flat(b.k) && p < |c| && c[p] == b.i && limit <= p
            && At(c, p + 1) == b.k.i && IsFixCheck(b.k.i)
            && GroupStart(c, p, limit) == |done|
            && MaxOff(c, |done|, p) == MaxOffOf(g)
            && SkipChecks(c, p + 1, budget) == (|FlatSeq(Taken(b.k, budget))|, Bytes(Taken(b.k, budget)))
  {
    hide OptCapsFrom, Flat, ItemWords, GroupStart, MaxOff, SkipChecks, Taken, Bytes, FlatSeq, MaxOffOf, Valid;
    var c, p, g := Scene(done, pend, b), |done| + |pend|, pend + [b.i];
    PrimSplit(b);
    assert Words(b.i) == [b.i];
    assert c == done + g + Flat(b.k);
    NextWord(done + g, b.k);
    CheckFirst(b.k);
    GroupStartIs(c, done, p, limit);
    assert Sub(c, |done|, g);
    MaxOffIs(c, |done|, g);
    SkipChecksIs(c, p + 1, b.k, MAX_OFF - MaxOffOf(g));
  }

  lemma {:induction false} MoveNothing(done: Code, b: Block, pend: seq<Cell>, limit: int)
    requires PassState(done, pend, b, limit, true) && b.Prim? && IsMovableCap(b.i) && b.k.Prim? && b.k.i.ICheck?
    requires Taken(b.k, MAX_OFF - MaxOffOf(pend + [b.i])) == []
    ensures OptCapsFrom(Scene(done, pend, b), |done| + |pend|, limit) == done + Flat(MoveCaps(b, pend, true))
    decreases Items(b), 0
  {
    hide Flat, ItemWords, OptCapsFrom;
    var c, p, g, k := Scene(done, pend, b), |done| + |pend|, pend + [b.i], b.k;
    GroupFacts(done, b, pend, limit);
    NoMove(c, p, limit);
    assert Shape(k) && Valid(k, 0) && Items(b) == 1 + Items(k) && Items(k) == 1 + Items(k.k);
    PrimSplit(k);
    var w := Words(k.i);
    SceneStep(done, g, w, Flat(k.k));
    assert c[p + 1] == k.i;
    PassPrim(c, p + 1, limit);
    LastWord(done + g, k.i);
    MoveCapsFlat(done + g + w, k.k, [], limit, true);
    var k2 := MoveCaps(k.k, [], true);
    assert MoveCaps(k, [], true) == Prim(k.i, k2);
    MoveOtherWords(k.i, k2, g);
    Regroup(done, g, w, Flat(k2));
  }

  /** A group in front of a check that is too big to cross. */
  lemma NoMove(c: Code, p: nat, limit: int)
    requires p < |c| && IsMovableCap(c[p]) && IsFixCheck(At(c, p + 1)) && p >= limit
    requires SkipChecks(c, p + 1, MAX_OFF - MaxOff(c, GroupStart(c, p, limit), p)).0 == 0
    ensures OptCapsFrom(c, p, limit) == OptCapsFrom(c, p + 1, limit)
  {
    hide SkipChecks, MaxOff, GroupStart, MoveUp, Size;
  }

  lemma DoMove(c: Code, p: nat, limit: int, start: nat, lc: nat, n: nat)
    requires p < |c| && IsMovableCap(c[p]) && IsFixCheck(At(c, p + 1)) && p >= limit && start == GroupStart(c, p, limit)
    requires SkipChecks(c, p + 1, MAX_OFF - MaxOff(c, start, p)) == (lc, n) && lc > 0 && n > 0
    ensures p + lc < |c| && OptCapsFrom(c, p, limit) == OptCapsFrom(MoveUp(c, start, p, p + lc, n), p + lc + 1, limit)
  {
    hide SkipChecks, MaxOff, GroupStart, MoveUp, Size;
  }

  lemma PrimSplit(b: Block)
    requires b.Prim?
    ensures Flat(b) == Words(b.i) + Flat(b.k)
  {
  }

  lemma {:induction false} MoveSome(done: Code, b: Block, pend: seq<Cell>, limit: int)
    requires PassState(done, pend, b, limit, true) && b.Prim? && IsMovableCap(b.i) && b.k.Prim? && b.k.i.ICheck?
    requires Taken(b.k, MAX_OFF - MaxOffOf(pend + [b.i])) != []
    ensures OptCapsFrom(Scene(done, pend, b), |done| + |pend|, limit) == done + Flat(MoveCaps(b, pend, true))
    decreases Items(b), 0, 1
  {
    hide Flat, ItemWords, OptCapsFrom, MoveUp, SkipChecks, GroupStart, MaxOff, MaxOffOf, Taken, Rest, Lift, FlatSeq;
    var c, p, g := Scene(done, pend, b), |done| + |pend|, pend + [b.i];
    var budget := MAX_OFF - MaxOffOf(g);
    var cks, rest := Taken(b.k, budget), Rest(b.k, budget);
    var n := Bytes(cks);
    var l := Lift(g, n);
    GroupFacts(done, b, pend, limit);
    TakenSplit(b.k, budget);
    CkNonEmpty(cks);
    DoMove(c, p, limit, |done|, |FlatSeq(cks)|, n);
    PrimSeqFlat(cks, rest);
    MoveUpIs2(done, g, FlatSeq(cks), Flat(rest), n, c);
    MoveSomeRest(done, g, cks, l, MovableFrom(l), rest, limit, n, p, b, budget);
  }

  lemma MoveUpIs2(done: Code, g: Code, ck: Code, rest: Code, n: nat, c: Code)
    requires g != [] && |ck| > 0 && c == done + g + (ck + rest)
    ensures MoveUp(c, |done|, |done| + |g| - 1, |done| + |g| - 1 + |ck|, n) == done + ck + Lift(g, n) + rest
  {
    assert c == done + g + ck + rest;
    MoveUpIs(done, g, ck, rest, n);
  }

  /** The pass goes on behind the moved captures, of which the movable ones may move again. */
  lemma {:induction false} MoveSomeRest(done: Code, g: Code, cks: seq<Cell>, l: Code, s: nat, rest: Block, limit: int,
      n: nat, p: nat, b: Block, budget: int)
    requires b.Prim? && b.k.Prim? && Shape(b.k) && Valid(b.k, 0) && Closed(done, limit) && p == |done| + |g| - 1
    requires (forall j :: 0 <= j < |g| ==> g[j].ICapture?) && l == Lift(g, n) && s == MovableFrom(l)
    requires cks == Taken(b.k, budget) && cks != [] && rest == Rest(b.k, budget)
    ensures OptCapsFrom(done + FlatSeq(cks) + l + Flat(rest), p + |FlatSeq(cks)| + 1, limit)
            == done + Flat(PrimSeq(cks + l[..s], MoveCaps(rest, l[s..], true)))
    decreases Items(b), 0, 0
  {
    hide Flat, ItemWords, OptCapsFrom, MoveCaps;
    var ck := FlatSeq(cks);
    var done2 := done + ck + l[..s];
    LiftCaps(g, n);
    TakenSplit(b.k, budget);
    SplitAt(done + ck, l, s, Flat(rest));
    ClosedAfter(done, cks, l, s, limit);
    ValidRest(b.k, budget);
    MoveCapsFlat(done2, rest, l[s..], limit, true);
    var k2 := MoveCaps(rest, l[s..], true);
    PrimSeqFlat(cks + l[..s], k2);
    FlatSeqJoin(cks, l[..s]);
    CapSeqFlat(l[..s]);
    JoinAll(done, ck, l[..s], Flat(k2));
  }

  lemma SplitAt(done: Code, l: Code, s: nat, rest: Code)
    requires s <= |l|
    ensures done + l + rest == done + l[..s] + l[s..] + rest
  {
    assert l == l[..s] + l[s..];
  }

  lemma JoinAll(done: Code, ck: Code, l: Code, rest: Code)
    ensures done + ck + l + rest == done + ((ck + l) + rest)
  {
  }

  lemma CkNonEmpty(cks: seq<Cell>)
    requires cks != []
    ensures |FlatSeq(cks)| > 0
  {
  }

  lemma {:induction false} LastCheck(cks: seq<Cell>)
    requires cks != [] && forall j :: 0 <= j < |cks| ==> IsFixCheck(cks[j])
    ensures |FlatSeq(cks)| > 0 && !IsMovableCap(FlatSeq(cks)[|FlatSeq(cks)| - 1])
    decreases |cks|
  {
    if |cks| > 1 {
      LastCheck(cks[1..]);
    } else {
      assert FlatSeq(cks[1..]) == [];
      assert FlatSeq(cks) == Words(cks[0]);
    }
  }

  lemma ClosedTail(done: Code, tail: Code, limit: int)
    requires Closed(done, limit) && (tail != [] ==> !IsMovableCap(tail[|tail| - 1]))
    ensures Closed(done + tail, limit)
  {
    var d := done + tail;
    if tail == [] {
      assert d == done;
    } else {
      assert d[|d| - 1] == tail[|tail| - 1];
    }
  }

  lemma ClosedAfter(done: Code, cks: seq<Cell>, l: seq<Cell>, s: nat, limit: int)
    requires Closed(done, limit) && cks != [] && s <= |l| && (s > 0 ==> !IsMovableCap(l[s - 1]))
    requires forall j :: 0 <= j < |cks| ==> IsFixCheck(cks[j])
    ensures Closed(done + FlatSeq(cks) + l[..s], limit)
  {
    hide FlatSeq, IsFixCheck;
    LastCheck(cks);
    ClosedTail(done, FlatSeq(cks), limit);
    ClosedTail(done + FlatSeq(cks), l[..s], limit);
  }

  lemma {:induction false} ValidRest(b: Block, budget: int)
    requires Valid(b, 0)
    ensures Valid(Rest(b, budget), 0)
    decreases b
  {
    if b.Prim? && b.i.ICheck? && CheckStep(b.i.ck) <= budget {
      ValidRest(b.k, budget - CheckStep(b.i.ck));
    }
  }

  /** optimizecaptures on the words of a block. */
  lemma OptCapsFlat(b: Block)
    requires Shape(b) && Valid(b, 0)
    ensures OptCaps(Flat(b)) == Flat(MoveAll(b))
  {
    MoveCapsFlat([], b, [], 0, true);
    assert Scene([], [], b) == Flat(b);
  }

  // ---- the pass keeps the meaning ----

  /** What a list of captures does at position i. */
  function ApplyCaps(g: seq<Cell>, i: int, caps: seq<Capture>): seq<Capture> {
    if g == [] then caps
    else if g[0].ICapture? then
      ApplyCaps(g[1..], i, DoCapture(g[0].op, g[0].idx, g[0].kind, g[0].off, i, caps))
    else ApplyCaps(g[1..], i, caps)
  }

  predicate AllPass(cks: seq<Cell>, x: Subject, i: int)
    requires 0 <= i <= |x.s|
  {
    cks != [] && cks[0].ICheck? ==>
      Passes(cks[0].ck, x.s, i) && AllPass(cks[1..], x, i + CheckStep(cks[0].ck))
  }

  lemma PrimEval(i: Cell, k: Block, x: Subject, p: int, caps: seq<Capture>)
    requires 0 <= p <= |x.s|
    ensures EvalB(Prim(i, k), x, p, caps) ==
            var r := EvalPrim(i, x, p, caps); if r.Ok? then EvalB(k, x, r.j, r.caps) else r
  {
  }

  lemma {:induction false} CapsEval(g: seq<Cell>, b: Block, x: Subject, i: int, caps: seq<Capture>)
    requires 0 <= i <= |x.s| && forall j :: 0 <= j < |g| ==> g[j].ICapture?
    ensures EvalB(PrimSeq(g, b), x, i, caps) == EvalB(b, x, i, ApplyCaps(g, i, caps))
    decreases |g|
  {
    hide EvalB, EvalItem, DoCapture;
    if g != [] {
      PrimEval(g[0], PrimSeq(g[1..], b), x, i, caps);
      CapsEval(g[1..], b, x, i, DoCapture(g[0].op, g[0].idx, g[0].kind, g[0].off, i, caps));
    }
  }

  lemma {:induction false} ChecksEval(cks: seq<Cell>, b: Block, x: Subject, i: int, caps: seq<Capture>)
    requires 0 <= i <= |x.s| && forall j :: 0 <= j < |cks| ==> cks[j].ICheck?
    ensures AllPass(cks, x, i) ==>
            i + Bytes(cks) <= |x.s| && EvalB(PrimSeq(cks, b), x, i, caps) == EvalB(b, x, i + Bytes(cks), caps)
    ensures !AllPass(cks, x, i) ==> EvalB(PrimSeq(cks, b), x, i, caps) == Fail
    decreases |cks|
  {
    hide EvalB, EvalItem;
    if cks != [] { PrimEval(cks[0], PrimSeq(cks[1..], b), x, i, caps); }
    if cks != [] && Passes(cks[0].ck, x.s, i) {
      ChecksEval(cks[1..], b, x, i + CheckStep(cks[0].ck), caps);
    }
  }

  /** Captures that moved across n bytes still mark the positions they marked before. */
  lemma {:induction false} LiftApply(g: seq<Cell>, n: nat, i: int, caps: seq<Capture>)
    requires forall j :: 0 <= j < |g| ==> g[j].ICapture? && !g[j].op.FullCap?
    ensures ApplyCaps(Lift(g, n), i + n, caps) == ApplyCaps(g, i, caps)
    decreases |g|
  {
    if g != [] {
      var c := DoCapture(g[0].op, g[0].idx, g[0].kind, g[0].off, i, caps);
      assert DoCapture(g[0].op, g[0].idx, g[0].kind, g[0].off + n, i + n, caps) == c;
      LiftApply(g[1..], n, i, c);
    }
  }

  /** One move: captures in front of checks, or behind them and corrected, mean the same. */
  lemma MoveEval(g: seq<Cell>, cks: seq<Cell>, b: Block, x: Subject, i: int, caps: seq<Capture>)
    requires 0 <= i <= |x.s|
    requires forall j :: 0 <= j < |g| ==> IsMovableCap(g[j])
    requires forall j :: 0 <= j < |cks| ==> cks[j].ICheck?
    ensures EvalB(PrimSeq(cks + Lift(g, Bytes(cks)), b), x, i, caps) == EvalB(PrimSeq(g, PrimSeq(cks, b)), x, i, caps)
  {
    hide EvalB, EvalItem, ApplyCaps, AllPass, Lift, Bytes, PrimSeq;
    var n := Bytes(cks);
    var l := Lift(g, n);
    LiftCaps(g, n);
    PrimSeqJoin(cks, l, b);
    CapsEval(g, PrimSeq(cks, b), x, i, caps);
    ChecksEval(cks, b, x, i, ApplyCaps(g, i, caps));
    ChecksEval(cks, PrimSeq(l, b), x, i, caps);
    if AllPass(cks, x, i) {
      CapsEval(l, b, x, i + n, caps);
      LiftApply(g, n, i, caps);
    }
  }

  /** The same instructions in front of blocks of the same meaning. */
  lemma {:induction false} PrimSeqCong(g: seq<Cell>, a: Block, b: Block, x: Subject, i: int, caps: seq<Capture>)
    requires 0 <= i <= |x.s|
    requires forall i2: int, c2: seq<Capture> | 0 <= i2 <= |x.s| :: EvalB(a, x, i2, c2) == EvalB(b, x, i2, c2)
    ensures EvalB(PrimSeq(g, a), x, i, caps) == EvalB(PrimSeq(g, b), x, i, caps)
    decreases |g|
  {
    hide EvalB, EvalItem, EvalPrim;
    if g != [] {
      PrimEval(g[0], PrimSeq(g[1..], a), x, i, caps);
      PrimEval(g[0], PrimSeq(g[1..], b), x, i, caps);
      var r := EvalPrim(g[0], x, i, caps);
      if r.Ok? { PrimSeqCong(g[1..], a, b, x, r.j, r.caps); }
    }
  }

  ghost predicate SameEval(a: Block, b: Block, x: Subject) {
    forall i: int, caps: seq<Capture> | 0 <= i <= |x.s| :: EvalB(a, x, i, caps) == EvalB(b, x, i, caps)
  }

  lemma PrimSeqSame(g: seq<Cell>, a: Block, b: Block, x: Subject)
    requires SameEval(a, b, x)
    ensures SameEval(PrimSeq(g, a), PrimSeq(g, b), x)
  {
    forall i: int, caps: seq<Capture> | 0 <= i <= |x.s|
      ensures EvalB(PrimSeq(g, a), x, i, caps) == EvalB(PrimSeq(g, b), x, i, caps)
    {
      PrimSeqCong(g, a, b, x, i, caps);
    }
  }

  lemma TailSame(b: Block, k: Block, x: Subject)
    requires !b.End? && SameEval(k, b.k, x)
    ensures SameEval(WithTail(b, k), b, x)
  {
    forall i: int, caps: seq<Capture> | 0 <= i <= |x.s|
      ensures EvalB(WithTail(b, k), x, i, caps) == EvalB(b, x, i, caps)
    {
      TailItem(b, k, x, i, caps);
    }
  }

  lemma TailItem(b: Block, k: Block, x: Subject, i: int, caps: seq<Capture>)
    requires !b.End? && 0 <= i <= |x.s|
    ensures EvalItem(WithTail(b, k), x, i, caps) == EvalItem(b, x, i, caps)
  {
    var one := WithTail(b, End);
    AppendItem(one, k, x, i, caps);
    AppendItem(one, b.k, x, i, caps);
  }

  /** optimizecaptures changes neither the result nor the capture list of any run. */
  lemma {:induction false} MoveCapsSame(b: Block, pend: seq<Cell>, free: bool, x: Subject)
    requires Shape(b) && forall j :: 0 <= j < |pend| ==> IsMovableCap(pend[j])
    ensures SameEval(MoveCaps(b, pend, free), PrimSeq(pend, b), x)
    decreases Items(b)
  {
    hide EvalB;
    if b.End? {
    } else if !b.Prim? {
      MoveCapsSame(b.k, [], false, x);
      TailSame(b, MoveCaps(b.k, [], false), x);
      PrimSeqSame(pend, WithTail(b, MoveCaps(b.k, [], false)), b, x);
    } else if !free || !IsMovableCap(b.i) {
      MoveCapsSame(b.k, [], true, x);
      PrimSame(b.i, MoveCaps(b.k, [], true), b.k, x);
      PrimSeqSame(pend, Prim(b.i, MoveCaps(b.k, [], true)), b, x);
    } else {
      var g := pend + [b.i];
      PrimSeqJoin(pend, [b.i], b.k);
      assert PrimSeq([b.i], b.k) == b;
      if !(b.k.Prim? && b.k.i.ICheck?) {
        MoveCapsSame(b.k, g, true, x);
      } else {
        MoveGroupSame(b, pend, x);
      }
    }
  }

  lemma PrimSame(i: Cell, a: Block, b: Block, x: Subject)
    requires SameEval(a, b, x)
    ensures SameEval(Prim(i, a), Prim(i, b), x)
  {
  }

  lemma {:induction false} MoveGroupSame(b: Block, pend: seq<Cell>, x: Subject)
    requires Shape(b) && forall j :: 0 <= j < |pend| ==> IsMovableCap(pend[j])
    requires b.Prim? && IsMovableCap(b.i) && b.k.Prim? && b.k.i.ICheck?
    ensures SameEval(MoveCaps(b, pend, true), PrimSeq(pend + [b.i], b.k), x)
    decreases Items(b), 0, 1
  {
    hide EvalB, PrimSeq, SameEval;
    var g := pend + [b.i];
    var budget := MAX_OFF - MaxOffOf(g);
    var cks := Taken(b.k, budget);
    if cks == [] {
      MoveCapsSame(b.k, [], true, x);
      EmptyPrimSeq(b.k);
      PrimSeqSame(g, MoveCaps(b.k, [], true), b.k, x);
    } else {
      MoveSomeSame(b, g, budget, x);
    }
  }

  lemma {:induction false} MoveSomeSame(b: Block, g: seq<Cell>, budget: int, x: Subject)
    requires b.Prim? && Shape(b.k) && (forall j :: 0 <= j < |g| ==> IsMovableCap(g[j])) && Taken(b.k, budget) != []
    ensures var cks := Taken(b.k, budget); var l := Lift(g, Bytes(cks)); var s := MovableFrom(l);
            SameEval(PrimSeq(cks + l[..s], MoveCaps(Rest(b.k, budget), l[s..], true)), PrimSeq(g, b.k), x)
    decreases Items(b), 0, 0
  {
    hide EvalB, PrimSeq, SameEval, MoveCaps, Shape, Bytes, Lift, Taken, Rest, IsMovableCap;
    var cks, rest := Taken(b.k, budget), Rest(b.k, budget);
    var l := Lift(g, Bytes(cks));
    var s := MovableFrom(l);
    TakenSplit(b.k, budget);
    MoveCapsSame(rest, l[s..], true, x);
    MoveSomeGlue(g, cks, l, s, rest, MoveCaps(rest, l[s..], true), x);
  }

  lemma MoveSomeGlue(g: seq<Cell>, cks: seq<Cell>, l: seq<Cell>, s: nat, rest: Block, k2: Block, x: Subject)
    requires l == Lift(g, Bytes(cks)) && s <= |l| && SameEval(k2, PrimSeq(l[s..], rest), x)
    requires forall j :: 0 <= j < |g| ==> IsMovableCap(g[j])
    requires forall j :: 0 <= j < |cks| ==> cks[j].ICheck?
    ensures SameEval(PrimSeq(cks + l[..s], k2), PrimSeq(g, PrimSeq(cks, rest)), x)
  {
    hide EvalB, PrimSeq, SameEval, Bytes, Lift;
    PrimSeqSame(cks + l[..s], k2, PrimSeq(l[s..], rest), x);
    PrimSeqJoin(cks + l[..s], l[s..], rest);
    SplitJoin(cks, l, s);
    MoveSame(g, cks, rest, x);
    SameTrans(PrimSeq(cks + l[..s], k2), PrimSeq(cks + l, rest), PrimSeq(g, PrimSeq(cks, rest)), x);
  }

  lemma SplitJoin(a: seq<Cell>, l: seq<Cell>, s: nat)
    requires s <= |l|
    ensures a + l[..s] + l[s..] == a + l
  {
    assert l == l[..s] + l[s..];
  }

  lemma SameTrans(a: Block, b: Block, c: Block, x: Subject)
    requires SameEval(a, b, x) && SameEval(b, c, x)
    ensures SameEval(a, c, x)
  {
    hide EvalB;
  }

  lemma EmptyPrimSeq(b: Block)
    ensures PrimSeq([], b) == b
  {
  }

  lemma MoveSame(g: seq<Cell>, cks: seq<Cell>, b: Block, x: Subject)
    requires forall j :: 0 <= j < |g| ==> IsMovableCap(g[j])
    requires forall j :: 0 <= j < |cks| ==> cks[j].ICheck?
    ensures SameEval(PrimSeq(cks + Lift(g, Bytes(cks)), b), PrimSeq(g, PrimSeq(cks, b)), x)
  {
    hide EvalB, PrimSeq;
    forall i: int, caps: seq<Capture> | 0 <= i <= |x.s|
      ensures EvalB(PrimSeq(cks + Lift(g, Bytes(cks)), b), x, i, caps) == EvalB(PrimSeq(g, PrimSeq(cks, b)), x, i, caps)
    {
      MoveEval(g, cks, b, x, i, caps);
    }
  }

  // ---- the pass keeps what holds of built blocks ----

  /** The captures open after g, or -1 when one closes that is not open. */
  function Depth(g: seq<Cell>, d: int): int {
    if g == [] || d < 0 then d
    else if g[0].ICapture? && g[0].op.OpenCap? then Depth(g[1..], d + 1)
    else if g[0].ICapture? && g[0].op.CloseCap? then Depth(g[1..], d - 1)
    else Depth(g[1..], d)
  }

  lemma {:induction false} DepthBalanced(g: seq<Cell>, b: Block, d: nat)
    ensures Balanced(PrimSeq(g, b), d) <==> Depth(g, d) >= 0 && Balanced(b, Depth(g, d))
    decreases |g|
  {
    if g != [] {
      if g[0].ICapture? && g[0].op.OpenCap? {
        DepthBalanced(g[1..], b, d + 1);
      } else if g[0].ICapture? && g[0].op.CloseCap? {
        if d > 0 { DepthBalanced(g[1..], b, d - 1); } else { NegDepth(g[1..], -1); }
      } else {
        DepthBalanced(g[1..], b, d);
      }
    }
  }

  lemma NegDepth(g: seq<Cell>, d: int)
    requires d < 0
    ensures Depth(g, d) == d
  {
  }

  lemma {:induction false} DepthJoin(g: seq<Cell>, h: seq<Cell>, d: int)
    ensures Depth(g + h, d) == Depth(h, Depth(g, d))
    decreases |g|
  {
    if g != [] && d >= 0 {
      assert (g + h)[1..] == g[1..] + h;
      var d2 := if g[0].ICapture? && g[0].op.OpenCap? then d + 1
                else if g[0].ICapture? && g[0].op.CloseCap? then d - 1 else d;
      DepthJoin(g[1..], h, d2);
    } else if g == [] {
      assert g + h == h;
    } else {
      NegDepth(h, d);
    }
  }

  lemma {:induction false} DepthLift(g: seq<Cell>, n: nat, d: int)
    ensures Depth(Lift(g, n), d) == Depth(g, d)
    decreases |g|
  {
    if g != [] && d >= 0 {
      var d2 := if g[0].ICapture? && g[0].op.OpenCap? then d + 1
                else if g[0].ICapture? && g[0].op.CloseCap? then d - 1 else d;
      DepthLift(g[1..], n, d2);
    }
  }

  lemma {:induction false} DepthChecks(cks: seq<Cell>, d: int)
    requires forall j :: 0 <= j < |cks| ==> cks[j].ICheck?
    ensures Depth(cks, d) == d
    decreases |cks|
  {
    if cks != [] { DepthChecks(cks[1..], d); }
  }

  lemma {:induction false} PrimSeqShape(g: seq<Cell>, b: Block)
    ensures Shape(PrimSeq(g, b)) <==> Shape(b) && forall j :: 0 <= j < |g| ==> GoodPrim(g[j])
    ensures Valid(PrimSeq(g, b), 0) <==> Valid(b, 0)
    decreases |g|
  {
    if g != [] {
      PrimSeqShape(g[1..], b);
      assert forall j :: 1 <= j < |g| ==> g[j] == g[1..][j - 1];
      assert Shape(PrimSeq(g, b)) <==> GoodPrim(g[0]) && Shape(PrimSeq(g[1..], b));
      assert forall j :: 0 <= j < |g[1..]| ==> g[1..][j] == g[j + 1];
    }
  }

  lemma {:induction false} MaxOffBound(g: seq<Cell>, j: nat)
    requires j < |g| && g[j].ICapture?
    ensures g[j].off <= MaxOffOf(g)
    decreases |g|
  {
    if j > 0 {
      MaxOffBound(g[1..], j - 1);
    }
  }

  /** A corrected offset never exceeds what an instruction can hold. */
  lemma LiftFits(g: seq<Cell>, n: nat)
    requires (forall j :: 0 <= j < |g| ==> IsMovableCap(g[j])) && n <= MAX_OFF - MaxOffOf(g)
    ensures forall j :: 0 <= j < |g| ==> GoodPrim(Lift(g, n)[j])
  {
    LiftCaps(g, n);
    forall j | 0 <= j < |g| ensures GoodPrim(Lift(g, n)[j]) {
      MaxOffBound(g, j);
    }
  }

  ghost predicate Sound(b: Block, d: nat) {
    Shape(b) && Valid(b, 0) && Balanced(b, d)
  }

  lemma PrimSeqSound(g: seq<Cell>, b: Block, d: nat)
    ensures Sound(PrimSeq(g, b), d) <==>
            (forall j :: 0 <= j < |g| ==> GoodPrim(g[j])) && Depth(g, d) >= 0 && Sound(b, Depth(g, d))
  {
    hide Shape, Valid, Balanced, PrimSeq, Depth;
    PrimSeqShape(g, b);
    DepthBalanced(g, b, d);
  }

  lemma {:induction false} MoveCapsSound(b: Block, pend: seq<Cell>, free: bool, d: nat)
    requires Sound(PrimSeq(pend, b), d) && forall j :: 0 <= j < |pend| ==> IsMovableCap(pend[j])
    ensures Sound(MoveCaps(b, pend, free), d)
    decreases Items(b), 2
  {
    hide Sound, PrimSeq, Depth, Shape, Balanced, Valid;
    PrimSeqSound(pend, b, d);
    var d2 := Depth(pend, d);
    if b.End? {
    } else if !b.Prim? {
      JumpSound(b, d2);
      EmptySeq(b.k);
      MoveCapsSound(b.k, [], false, d2);
      var k2 := MoveCaps(b.k, [], false);
      TailSound(b, k2, d2);
      PrimSeqSound(pend, WithTail(b, k2), d);
    } else if !free || !IsMovableCap(b.i) {
      OtherSound(b, pend, free, d);
    } else {
      var g := pend + [b.i];
      PrimSeqJoin(pend, [b.i], b.k);
      OneSeq(b);
      if !(b.k.Prim? && b.k.i.ICheck?) {
        MoveCapsSound(b.k, g, true, d);
      } else {
        GroupSound(b, pend, d);
      }
    }
  }

  lemma EmptySeq(b: Block)
    ensures PrimSeq([], b) == b
  {
  }

  lemma OneSeq(b: Block)
    requires b.Prim?
    ensures PrimSeq([b.i], b.k) == b
  {
  }

  lemma JumpSound(b: Block, d: nat)
    requires Sound(b, d) && !b.End? && !b.Prim?
    ensures Sound(b.k, d)
  {
  }

  lemma TailSound(b: Block, k: Block, d: nat)
    requires Sound(b, d) && !b.End? && !b.Prim? && Sound(k, d)
    ensures Sound(WithTail(b, k), d)
  {
  }

  lemma {:induction false} OtherSound(b: Block, pend: seq<Cell>, free: bool, d: nat)
    requires Sound(PrimSeq(pend, b), d) && b.Prim? && (!free || !IsMovableCap(b.i))
    ensures Sound(MoveCaps(b, pend, free), d)
    decreases Items(b), 1
  {
    hide Sound, PrimSeq, Shape, Balanced, Valid;
    PrimSeqSound(pend, b, d);
    var d2 := Depth(pend, d);
    OneSeq(b);
    PrimSeqSound([b.i], b.k, d2);
    var d3 := Depth([b.i], d2);
    EmptySeq(b.k);
    MoveCapsSound(b.k, [], true, d3);
    var k2 := MoveCaps(b.k, [], true);
    OneSeq(Prim(b.i, k2));
    PrimSeqSound([b.i], k2, d2);
    PrimSeqSound(pend, Prim(b.i, k2), d);
  }

  lemma {:induction false} GroupSound(b: Block, pend: seq<Cell>, d: nat)
    requires b.Prim? && IsMovableCap(b.i) && b.k.Prim? && b.k.i.ICheck?
    requires Sound(PrimSeq(pend + [b.i], b.k), d) && forall j :: 0 <= j < |pend| ==> IsMovableCap(pend[j])
    ensures Sound(MoveCaps(b, pend, true), d)
    decreases Items(b), 1
  {
    hide Sound, PrimSeq, Depth, Shape, Balanced, Valid;
    var g := pend + [b.i];
    var budget := MAX_OFF - MaxOffOf(g);
    if Taken(b.k, budget) == [] {
      PrimSeqSound(g, b.k, d);
      EmptySeq(b.k);
      MoveCapsSound(b.k, [], true, Depth(g, d));
      PrimSeqSound(g, MoveCaps(b.k, [], true), d);
    } else {
      PrimSeqSound(g, b.k, d);
      var cks, rest := Taken(b.k, budget), Rest(b.k, budget);
      var l := Lift(g, Bytes(cks));
      var s := MovableFrom(l);
      ShapeOf(b.k, Depth(g, d));
      TakenSplit(b.k, budget);
      LiftFits(g, Bytes(cks));
      MovedSound(g, cks, l, s, rest, d);
      MoveCapsSound(rest, l[s..], true, Depth(cks + l[..s], d));
      PrimSeqSound(cks + l[..s], MoveCaps(rest, l[s..], true), d);
    }
  }

  lemma ShapeOf(b: Block, d: nat)
    requires Sound(b, d)
    ensures Shape(b)
  {
  }

  lemma MovedSound(g: seq<Cell>, cks: seq<Cell>, l: seq<Cell>, s: nat, rest: Block, d: nat)
    requires l == Lift(g, Bytes(cks)) && s <= |l| && (forall j :: 0 <= j < |l| ==> GoodPrim(l[j]))
    requires forall j :: 0 <= j < |cks| ==> cks[j].ICheck?
    requires Sound(PrimSeq(g, PrimSeq(cks, rest)), d)
    ensures Depth(cks + l[..s], d) >= 0 && Sound(PrimSeq(l[s..], rest), Depth(cks + l[..s], d))
    ensures forall j :: 0 <= j < |cks + l[..s]| ==> GoodPrim((cks + l[..s])[j])
  {
    hide Sound, PrimSeq, Depth, Bytes, Lift, GoodPrim;
    PrimSeqSound(g, PrimSeq(cks, rest), d);
    var d3 := Depth(g, d);
    PrimSeqSound(cks, rest, d3);
    DepthChecks(cks, d3);
    DepthChecks(cks, d);
    DepthLift(g, Bytes(cks), d);
    DepthJoin(cks, l[..s], d);
    DepthJoin(l[..s], l[s..], d);
    assert l == l[..s] + l[s..];
    if Depth(l[..s], d) < 0 { NegDepth(l[s..], Depth(l[..s], d)); }
    PrimSeqSound(l[s..], rest, Depth(cks + l[..s], d));
  }

  lemma {:induction false} CapsBacked(g: seq<Cell>, b: Block, fed: bool)
    requires forall j :: 0 <= j < |g| ==> g[j].ICapture?
    ensures Backed(PrimSeq(g, b), fed) == Backed(b, fed)
    decreases |g|
  {
    if g != [] { CapsBacked(g[1..], b, fed); }
  }

  lemma {:induction false} ChecksBacked(cks: seq<Cell>, b: Block, fed: bool)
    requires cks != [] && forall j :: 0 <= j < |cks| ==> cks[j].ICheck?
    ensures Backed(PrimSeq(cks, b), fed) == Backed(b, true)
    decreases |cks|
  {
    if |cks| > 1 { ChecksBacked(cks[1..], b, true); } else { EmptySeq(b); }
  }

  /** Moving captures leaves a check in front of every step back. */
  lemma {:induction false} MoveCapsBacked(b: Block, pend: seq<Cell>, free: bool, fed: bool)
    requires Backed(b, fed) && Shape(b) && forall j :: 0 <= j < |pend| ==> IsMovableCap(pend[j])
    ensures Backed(MoveCaps(b, pend, free), fed)
    decreases Items(b)
  {
    hide PrimSeq;
    if b.End? {
      CapsBacked(pend, End, fed);
    } else if !b.Prim? {
      MoveCapsBacked(b.k, [], false, false);
      CapsBacked(pend, WithTail(b, MoveCaps(b.k, [], false)), fed);
    } else if !free || !IsMovableCap(b.i) {
      MoveCapsBacked(b.k, [], true, if b.i.IBack? then false else b.i.ICheck? || (b.i.ICapture? && fed));
      CapsBacked(pend, Prim(b.i, MoveCaps(b.k, [], true)), fed);
    } else {
      GroupBacked(b, pend, fed);
    }
  }

  lemma {:induction false} GroupBacked(b: Block, pend: seq<Cell>, fed: bool)
    requires b.Prim? && IsMovableCap(b.i) && Backed(b.k, fed) && Shape(b.k) && forall j :: 0 <= j < |pend| ==>
             IsMovableCap(pend[j])
    ensures Backed(MoveCaps(b, pend, true), fed)
    decreases Items(b), 0
  {
    hide PrimSeq, Shape;
    var g := pend + [b.i];
    var budget := MAX_OFF - MaxOffOf(g);
    var cks, rest := Taken(b.k, budget), Rest(b.k, budget);
    if !(b.k.Prim? && b.k.i.ICheck?) {
      MoveCapsBacked(b.k, g, true, fed);
    } else if cks == [] {
      MoveCapsBacked(b.k, [], true, fed);
      CapsBacked(g, MoveCaps(b.k, [], true), fed);
    } else {
      var l := Lift(g, Bytes(cks));
      var s := MovableFrom(l);
      TakenSplit(b.k, budget);
      LiftCaps(g, Bytes(cks));
      ChecksBacked(cks, rest, fed);
      MoveCapsBacked(rest, l[s..], true, true);
      var k2 := MoveCaps(rest, l[s..], true);
      CapsBacked(l[..s], k2, true);
      ChecksBacked(cks, PrimSeq(l[..s], k2), fed);
      PrimSeqJoin(cks, l[..s], k2);
    }
  }

  /** optimizecaptures keeps everything that holds of a built block. */
  lemma MoveAllGood(b: Block)
    requires Good(b)
    ensures Good(MoveAll(b))
  {
    EmptySeq(b);
    MoveCapsBacked(b, [], true, false);
    MoveCapsSound(b, [], true, 0);
    if !b.End? && !b.Prim? {
      assert MoveCaps(b.k, [], false).End? <==> b.k.End?;
    } else {
      PrimHead(b, [], true);
    }
  }

  lemma {:induction false} PrimHead(b: Block, pend: seq<Cell>, free: bool)
    requires b.End? || b.Prim? || pend != []
    ensures MoveCaps(b, pend, free).End? || MoveCaps(b, pend, free).Prim?
    decreases Items(b)
  {
    if b.Prim? && free && IsMovableCap(b.i) && !(b.k.Prim? && b.k.i.ICheck?) {
      PrimHead(b.k, pend + [b.i], true);
    }
  }
}
