/**
  Stack discipline: a type for every word says what the stack holds when control is there, and
  typed code never fails an assertion of the machine, on any subject and however long it runs.
 */
module LpegTypes {
  import opened LpegCode
  import opened LpegMachine

  /**
    What the stack holds above the entry of the running rule, or of the whole match: one choice
    for each number after the first.  The numbers count the captures opened since.  At least
    `lo` bytes of the subject have been passed.
   */
  datatype Ty = Ty(inRule: bool, opens: seq<nat>, lo: nat)

  /** The types of the words of a code and of its IEnd; words inside an instruction have none. */
  type Typing = seq<Option<Ty>>

  function Push(t: Ty): Ty {
    Ty(t.inRule, t.opens + [0], 0)
  }

  function Pop(t: Ty): Ty
    requires t.opens != []
  {
    Ty(t.inRule, t.opens[..|t.opens| - 1], 0)
  }

  function Top(t: Ty): nat
    requires t.opens != []
  {
    t.opens[|t.opens| - 1]
  }

  function WithTop(t: Ty, n: nat): Ty
    requires t.opens != []
  {
    Ty(t.inRule, t.opens[..|t.opens| - 1] + [n], 0)
  }

  const RULE := Ty(true, [0], 0)
  const MAIN := Ty(false, [0], 0)

  /** Control may come to word q with the stack that t describes. */
  ghost predicate Has(h: Typing, q: int, t: Ty) {
    0 <= q < |h| && h[q] == Some(Ty(t.inRule, t.opens, 0))
  }

  /** The same, when k bytes have been passed. */
  ghost predicate HasPast(h: Typing, q: int, t: Ty, k: nat) {
    0 <= q < |h| && h[q].Some? && h[q].value.inRule == t.inRule && h[q].value.opens == t.opens && h[q].value.lo <= k
  }

  /** The instruction i at word p, reached with type t, leads only to words of the right types. */
  ghost predicate InstOk(h: Typing, p: int, i: Cell, t: Ty)
    requires t.opens != []
  {
    match i
    case IEnd => !t.inRule && t.opens == [0]
    case IRet => t.inRule && t.opens == [0]
    case ICheck(ck, offset) => HasPast(h, p + CheckSize(ck), t, CheckStep(ck))
      && (offset != 0 ==> Has(h, p + offset, t))
    case ISpan(_) => Has(h, p + CHARSET_INST_SIZE, t)
    case IBack(_) => Has(h, p + 1, t)
    case IChoice(offset, aux) => aux <= t.lo && Has(h, p + 1, Push(t)) && Has(h, p + offset, t)
    case IJmp(offset) => Has(h, p + offset, t)
    case ICall(offset) => Has(h, p + offset, RULE) && Has(h, p + 1, t)
    case IOpenCall(_) => Has(h, p + 1, t)
    case ICommit(offset) => |t.opens| > 1 && Has(h, p + offset, Pop(t))
    case IPartialCommit(offset) => |t.opens| > 1 && Top(t) == 0 && Has(h, p + offset, t)
    case IBackCommit(offset) => |t.opens| > 1 && Has(h, p + offset, Pop(t))
    case IFailTwice => |t.opens| > 1
    case IFail => true
    case ICapture(op, _, _, _) =>
      if op.OpenCap? then Has(h, p + 1, WithTop(t, Top(t) + 1))
      else if op.CloseCap? then Top(t) > 0 && Has(h, p + 1, WithTop(t, Top(t) - 1))
      else Has(h, p + 1, t)
    case CharsetWord => false
  }

  ghost predicate WordOk(c: Code, h: Typing, p: int)
    requires 0 <= p < |h|
  {
    h[p].Some? ==> h[p].value.opens != [] && InstOk(h, p, At(c, p), h[p].value)
  }

  ghost predicate Typed(c: Code, h: Typing) {
    |h| == |c| + 1 && forall p :: 0 <= p < |h| ==> WordOk(c, h, p)
  }

  // ---- states ----

  /** The stack is as t says, when the capture list has n entries. */
  ghost predicate Fits(h: Typing, x: seq<Byte>, stack: seq<Entry>, t: Ty, n: int)
    decreases |stack|
  {
    && t.opens != [] && stack != []
    && var e := Last(stack);
       if |t.opens| > 1 then
         e.Choice? && 0 <= e.s <= |x| && e.caplevel + Top(t) <= n && Has(h, e.p, Pop(t))
           && Fits(h, x, Front(stack), Pop(t), e.caplevel)
       else if t.inRule then
         e.Call? && Top(t) <= n && 0 <= e.ret < |h| && h[e.ret].Some? && h[e.ret].value.lo == 0
         && Fits(h, x, Front(stack), h[e.ret].value, n - Top(t))
       else
         |stack| == 1 && e.Choice? && e.p == GIVEUP && 0 <= e.s <= |x| && e.caplevel + Top(t) <= n
  }

  ghost predicate StateFits(h: Typing, x: seq<Byte>, st: State) {
    match st
    case Running(p, s, stack, caps) =>
      if p == GIVEUP then stack == []
      else 0 <= p < |h| && h[p].Some? && h[p].value.lo <= s <= |x| && Fits(h, x, stack, h[p].value, |caps|)
    case Failing(stack, caps) => exists t: Ty :: Fits(h, x, stack, t, |caps|)
    case Stuck => false
    case _ => true
  }

  lemma {:induction false} FitsMore(h: Typing, x: seq<Byte>, stack: seq<Entry>, t: Ty, n: int, m: int)
    requires Fits(h, x, stack, t, n) && n <= m
    ensures Fits(h, x, stack, t, m)
    decreases |stack|
  {
    if |t.opens| == 1 && t.inRule {
      FitsMore(h, x, Front(stack), h[Last(stack).ret].value, n - Top(t), m - Top(t));
    }
  }

  /** The bytes passed do not matter to the stack. */
  lemma FitsPast(h: Typing, x: seq<Byte>, stack: seq<Entry>, t: Ty, u: Ty, n: int)
    requires Fits(h, x, stack, t, n) && t.inRule == u.inRule && t.opens == u.opens
    ensures Fits(h, x, stack, u, n)
  {
  }

  lemma FitsPush(h: Typing, x: seq<Byte>, stack: seq<Entry>, t: Ty, n: nat, p: int, s: int)
    requires Fits(h, x, stack, t, n) && Has(h, p, t) && 0 <= s <= |x|
    ensures Fits(h, x, stack + [Choice(p, s, n)], Push(t), n)
  {
    var over := stack + [Choice(p, s, n)];
    assert Front(over) == stack;
    assert Pop(Push(t)) == Ty(t.inRule, t.opens, 0);
    FitsPast(h, x, stack, t, Pop(Push(t)), n);
  }

  lemma FitsPop(h: Typing, x: seq<Byte>, stack: seq<Entry>, t: Ty, n: int)
    requires Fits(h, x, stack, t, n) && |t.opens| > 1
    ensures Last(stack).Choice? && 0 <= Last(stack).s <= |x| && Last(stack).caplevel + Top(t) <= n
            && Has(h, Last(stack).p, Pop(t))
    ensures Fits(h, x, Front(stack), Pop(t), Last(stack).caplevel) && Fits(h, x, Front(stack), Pop(t), n)
  {
    FitsMore(h, x, Front(stack), Pop(t), Last(stack).caplevel, n);
  }

  lemma FitsCall(h: Typing, x: seq<Byte>, stack: seq<Entry>, t: Ty, n: nat, ret: int)
    requires Fits(h, x, stack, t, n) && Has(h, ret, t)
    ensures Fits(h, x, stack + [Call(ret)], RULE, n)
  {
    assert Front(stack + [Call(ret)]) == stack;
    FitsPast(h, x, stack, t, h[ret].value, n);
  }

  /** Opening or closing a capture; n2 is the new length of the capture list. */
  lemma FitsTop(h: Typing, x: seq<Byte>, stack: seq<Entry>, t: Ty, n: int, k: nat, n2: int)
    requires Fits(h, x, stack, t, n) && n - Top(t) <= n2 - k
    ensures Fits(h, x, stack, WithTop(t, k), n2)
  {
    var u := WithTop(t, k);
    assert Top(u) == k && |u.opens| == |t.opens|;
    if |t.opens| > 1 {
      assert Pop(u) == Pop(t);
    } else if t.inRule {
      FitsMore(h, x, Front(stack), h[Last(stack).ret].value, n - Top(t), n2 - k);
    }
  }

  lemma FitsPartial(h: Typing, x: seq<Byte>, stack: seq<Entry>, t: Ty, n: nat, s: int)
    requires Fits(h, x, stack, t, n) && |t.opens| > 1 && Top(t) == 0 && 0 <= s <= |x|
    ensures Fits(h, x, Front(stack) + [Last(stack).(s := s, caplevel := n)], t, n)
  {
    FitsPop(h, x, stack, t, n);
    assert Front(Front(stack) + [Last(stack).(s := s, caplevel := n)]) == Front(stack);
  }

  // ---- every turn keeps the types ----

  lemma {:induction false} FailFits(h: Typing, x: seq<Byte>, stack: seq<Entry>, t: Ty, caps: seq<Capture>)
    requires Fits(h, x, stack, t, |caps|)
    ensures var e := Last(stack);
            if e.Call? then exists u: Ty :: Fits(h, x, Front(stack), u, |caps|)
            else e.caplevel <= |caps| && StateFits(h, x, Running(e.p, e.s, Front(stack), caps[..e.caplevel]))
  {
    var e := Last(stack);
    if |t.opens| > 1 {
      FitsPop(h, x, stack, t, |caps|);
    } else if t.inRule {
      FitsMore(h, x, Front(stack), h[e.ret].value, |caps| - Top(t), |caps|);
    }
  }

  lemma ArrivesAt(h: Typing, x: seq<Byte>, q: int, t: Ty, s: int, stack: seq<Entry>, caps: seq<Capture>)
    requires Has(h, q, t) && 0 <= s <= |x| && Fits(h, x, stack, t, |caps|)
    ensures StateFits(h, x, Running(q, s, stack, caps))
  {
    FitsPast(h, x, stack, t, h[q].value, |caps|);
  }

  lemma CheckFits(h: Typing, x: seq<Byte>, p: int, ck: Check, offset: int, t: Ty, s: int, stack: seq<Entry>,
      caps: seq<Capture>)
    requires t.opens != [] && InstOk(h, p, ICheck(ck, offset), t) && 0 <= s <= |x| && Fits(h, x, stack, t, |caps|)
    ensures StateFits(h, x, StepAt(ICheck(ck, offset), x, p, s, stack, caps))
  {
    hide Fits;
    if Passes(ck, x, s) {
      FitsPast(h, x, stack, t, h[p + CheckSize(ck)].value, |caps|);
    } else if offset != 0 {
      ArrivesAt(h, x, p + offset, t, s, stack, caps);
    }
  }

  lemma CaptureFits(h: Typing, x: seq<Byte>, p: int, i: Cell, t: Ty, s: int, stack: seq<Entry>, caps: seq<Capture>)
    requires i.ICapture? && t.opens != [] && InstOk(h, p, i, t) && 0 <= s <= |x| && Fits(h, x, stack, t, |caps|)
    ensures StateFits(h, x, StepAt(i, x, p, s, stack, caps))
  {
    hide Fits;
    TopBound(h, x, stack, t, |caps|);
    var r := DoCapture(i.op, i.idx, i.kind, i.off, s, caps);
    if i.op.OpenCap? {
      FitsTop(h, x, stack, t, |caps|, Top(t) + 1, |r|);
      ArrivesAt(h, x, p + 1, WithTop(t, Top(t) + 1), s, stack, r);
    } else if i.op.CloseCap? {
      FitsTop(h, x, stack, t, |caps|, Top(t) - 1, |r|);
      ArrivesAt(h, x, p + 1, WithTop(t, Top(t) - 1), s, stack, r);
    } else {
      FitsMore(h, x, stack, t, |caps|, |r|);
      ArrivesAt(h, x, p + 1, t, s, stack, r);
    }
  }

  lemma TopBound(h: Typing, x: seq<Byte>, stack: seq<Entry>, t: Ty, n: int)
    requires t.opens != [] && Fits(h, x, stack, t, n)
    ensures Top(t) <= n
  {
  }

  lemma CommitFits(h: Typing, x: seq<Byte>, p: int, i: Cell, t: Ty, s: int, stack: seq<Entry>, caps: seq<Capture>)
    requires (i.ICommit? || i.IPartialCommit? || i.IBackCommit? || i.IFailTwice?) && t.opens != []
    requires InstOk(h, p, i, t) && 0 <= s <= |x| && Fits(h, x, stack, t, |caps|)
    ensures StateFits(h, x, StepAt(i, x, p, s, stack, caps))
  {
    hide Fits;
    FitsPop(h, x, stack, t, |caps|);
    NotEmpty(h, x, stack, t, |caps|);
    match i
    case ICommit(offset) => ArrivesAt(h, x, p + offset, Pop(t), s, Front(stack), caps);
    case IPartialCommit(offset) =>
      FitsPartial(h, x, stack, t, |caps|, s);
      ArrivesAt(h, x, p + offset, t, s, Front(stack) + [Last(stack).(s := s, caplevel := |caps|)], caps);
    case IBackCommit(offset) =>
      ArrivesAt(h, x, p + offset, Pop(t), Last(stack).s, Front(stack), caps[..Last(stack).caplevel]);
    case IFailTwice =>
  }

  lemma NotEmpty(h: Typing, x: seq<Byte>, stack: seq<Entry>, t: Ty, n: int)
    requires Fits(h, x, stack, t, n)
    ensures stack != []
  {
  }

  lemma ReturnFits(h: Typing, x: seq<Byte>, p: int, t: Ty, s: int, stack: seq<Entry>, caps: seq<Capture>)
    requires t.opens != [] && InstOk(h, p, IRet, t) && 0 <= s <= |x| && Fits(h, x, stack, t, |caps|)
    ensures StateFits(h, x, StepAt(IRet, x, p, s, stack, caps))
  {
  }

  lemma InstructionFits(h: Typing, x: seq<Byte>, p: int, i: Cell, t: Ty, s: int, stack: seq<Entry>, caps: seq<Capture>)
    requires t.opens != [] && InstOk(h, p, i, t) && t.lo <= s <= |x| && Fits(h, x, stack, t, |caps|)
    ensures StateFits(h, x, StepAt(i, x, p, s, stack, caps))
  {
    hide Fits;
    match i
    case IEnd => EndAlone(h, x, stack, t, |caps|);
    case IRet => ReturnFits(h, x, p, t, s, stack, caps);
    case ICheck(ck, offset) => CheckFits(h, x, p, ck, offset, t, s, stack, caps);
    case ISpan(cs) => ArrivesAt(h, x, p + CHARSET_INST_SIZE, t, SpanEnd(cs, x, s), stack, caps);
    case IBack(n) => if n <= s { ArrivesAt(h, x, p + 1, t, s - n, stack, caps); }
    case IChoice(offset, aux) =>
      FitsPush(h, x, stack, t, |caps|, p + offset, s - aux);
      ArrivesAt(h, x, p + 1, Push(t), s, stack + [Choice(p + offset, s - aux, |caps|)], caps);
    case IJmp(offset) => ArrivesAt(h, x, p + offset, t, s, stack, caps);
    case ICall(offset) =>
      FitsCall(h, x, stack, t, |caps|, p + 1);
      ArrivesAt(h, x, p + offset, RULE, s, stack + [Call(p + 1)], caps);
    case ICommit(_) => CommitFits(h, x, p, i, t, s, stack, caps);
    case IPartialCommit(_) => CommitFits(h, x, p, i, t, s, stack, caps);
    case IBackCommit(_) => CommitFits(h, x, p, i, t, s, stack, caps);
    case IFailTwice => CommitFits(h, x, p, i, t, s, stack, caps);
    case ICapture(_, _, _, _) => CaptureFits(h, x, p, i, t, s, stack, caps);
    case _ =>
  }

  lemma EndAlone(h: Typing, x: seq<Byte>, stack: seq<Entry>, t: Ty, n: int)
    requires Fits(h, x, stack, t, n) && !t.inRule && t.opens == [0]
    ensures |stack| == 1 && stack[0].Choice? && stack[0].p == GIVEUP
  {
  }

  lemma StepFits(c: Code, h: Typing, x: seq<Byte>, st: State)
    requires Typed(c, h) && StateFits(h, x, st)
    ensures StateFits(h, x, Step(c, x, st))
  {
    hide Fits, InstOk, StepAt;
    match st
    case Running(p, s, stack, caps) =>
      if p != GIVEUP {
        assert WordOk(c, h, p);
        InstructionFits(h, x, p, At(c, p), h[p].value, s, stack, caps);
      }
    case Failing(stack, caps) =>
      var t: Ty :| Fits(h, x, stack, t, |caps|);
      NotEmpty(h, x, stack, t, |caps|);
      FailFits(h, x, stack, t, caps);
    case _ =>
  }

  /** The machine's assertions ask for no more than the types promise. */
  lemma FitsOrderly(c: Code, h: Typing, x: seq<Byte>, st: State)
    requires Typed(c, h) && StateFits(h, x, st) && StateOk(st)
    ensures Orderly(c, st)
  {
    if st.Running? && st.p != GIVEUP {
      assert WordOk(c, h, st.p);
    }
  }

  lemma {:induction false} RunFits(c: Code, h: Typing, x: seq<Byte>, st: State, n: nat)
    requires Typed(c, h) && StateFits(h, x, st)
    ensures StateFits(h, x, RunN(c, x, st, n))
    decreases n
  {
    if n > 0 {
      StepFits(c, h, x, st);
      RunFits(c, h, x, Step(c, x, st), n - 1);
    }
  }

  /** Typed code keeps its stack in order in every state of every run. */
  lemma TypedDiscipline(c: Code, h: Typing, x: seq<Byte>, i: int)
    requires Typed(c, h) && Has(h, 0, MAIN) && 0 <= i <= |x|
    ensures Disciplined(c, x, Init(i))
  {
    hide RunN;
    assert Fits(h, x, [Choice(GIVEUP, i, 0)], MAIN, 0);
    ArrivesAt(h, x, 0, MAIN, i, [Choice(GIVEUP, i, 0)], []);
    forall n: nat ensures Orderly(c, RunN(c, x, Init(i), n)) {
      RunFits(c, h, x, Init(i), n);
      LevelsInvariant(c, x, Init(i), n);
      FitsOrderly(c, h, x, RunN(c, x, Init(i), n));
    }
  }
}
