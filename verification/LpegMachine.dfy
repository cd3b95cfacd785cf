/** LPeg's backtracking machine: one stack of calls and choices, and a capture list. */
module LpegMachine {
  import opened LpegCode

  /** An entry of the capture list; siz 0 marks a capture still open. */
  datatype Capture = Capture(s: int, idx: int, kind: Kind, siz: int)

  /** A pending call (`s` is NULL in the source) or a pending choice. */
  datatype Entry = Call(ret: int) | Choice(p: int, s: int, caplevel: nat)

  /**
    `Failing` is the loop at label `fail`; `Stuck` is a failed assertion.  `Raised` is the
    error of an open call outside a grammar, from which `match` never returns.
   */
  datatype State =
    | Running(p: int, s: int, stack: seq<Entry>, caps: seq<Capture>)
    | Failing(stack: seq<Entry>, caps: seq<Capture>)
    | Matched(s: int, caps: seq<Capture>)
    | NoMatch
    | Stuck
    | Raised
  {
    predicate Halted() { Matched? || NoMatch? || Stuck? }
  }

  /** The address of the single instruction `giveup`, outside every pattern. */
  const GIVEUP := -1

  function Init(s: int): State {
    Running(0, s, [Choice(GIVEUP, s, 0)], [])
  }

  /** The first position from s on whose byte is not in cs. */
  function SpanEnd(cs: Charset, x: seq<Byte>, s: int): (r: int)
    requires 0 <= s <= |x|
    ensures s <= r <= |x|
    ensures forall k :: s <= k < r ==> x[k] in cs
    ensures r < |x| ==> x[r] !in cs
    decreases |x| - s
  {
    if s < |x| && x[s] in cs then SpanEnd(cs, x, s + 1) else s
  }

  function Last<T>(q: seq<T>): T
    requires q != []
  {
    q[|q| - 1]
  }

  function Front<T>(q: seq<T>): seq<T>
    requires q != []
  {
    q[..|q| - 1]
  }

  /**
    The effect of a capture instruction at position s.  A close instruction whose capture
    is on top and short enough is folded into that capture.
   */
  function DoCapture(op: CapOp, idx: int, kind: Kind, off: nat, s: int, caps: seq<Capture>): (r: seq<Capture>)
    ensures |caps| <= |r| <= |caps| + 1
    ensures caps != [] ==> r[..|caps| - 1] == caps[..|caps| - 1]
    ensures !op.CloseCap? ==> |r| == |caps| + 1 && r[..|caps|] == caps
  {
    match op
    case FullCap => caps + [Capture(s - off, idx, kind, off + 1)]
    case OpenCap => caps + [Capture(s - off, idx, kind, 0)]
    case EmptyCap => caps + [Capture(s - off, idx, kind, 1)]
    case EmptyCapIdx => caps + [Capture(s - off, idx, kind, 1)]
    case CloseCap =>
      if caps != [] && Last(caps).siz == 0 && s - off - Last(caps).s < UCHAR_MAX then
        Front(caps) + [Last(caps).(siz := s - off - Last(caps).s + 1)]
      else
        caps + [Capture(s - off, idx, kind, 1)]
  }

  /** One turn of the main loop of `match` on code c and subject x. */
  function Step(c: Code, x: seq<Byte>, st: State): State {
    match st
    case Running(p, s, stack, caps) =>
      if p == GIVEUP then if stack == [] then NoMatch else Stuck
      else if !(0 <= s <= |x|) then Stuck
      else StepAt(At(c, p), x, p, s, stack, caps)
    case Failing(stack, caps) =>
      if stack == [] then Stuck
      else if Last(stack).Call? then Failing(Front(stack), caps)
      else if Last(stack).caplevel <= |caps| then
        Running(Last(stack).p, Last(stack).s, Front(stack), caps[..Last(stack).caplevel])
      else Stuck
    case _ => st
  }

  function StepAt(i: Cell, x: seq<Byte>, p: int, s: int, stack: seq<Entry>, caps: seq<Capture>): State
    requires 0 <= s <= |x|
  {
    match i
    case IEnd => if |stack| == 1 then Matched(s, caps) else Stuck
    case IRet => if stack != [] && Last(stack).Call? then Running(Last(stack).ret, s, Front(stack), caps) else Stuck
    case ICheck(ck, offset) =>
      if Passes(ck, x, s) then Running(p + CheckSize(ck), s + CheckStep(ck), stack, caps)
      else if offset != 0 then Running(p + offset, s, stack, caps)
      else Failing(stack, caps)
    case IBack(n) => if n > s then Failing(stack, caps) else Running(p + 1, s - n, stack, caps)
    case ISpan(cs) => Running(p + CHARSET_INST_SIZE, SpanEnd(cs, x, s), stack, caps)
    case IJmp(offset) => Running(p + offset, s, stack, caps)
    case IChoice(offset, aux) => Running(p + 1, s, stack + [Choice(p + offset, s - aux, |caps|)], caps)
    case ICall(offset) => Running(p + offset, s, stack + [Call(p + 1)], caps)
    case ICommit(offset) =>
      if stack != [] && Last(stack).Choice? then Running(p + offset, s, Front(stack), caps) else Stuck
    case IPartialCommit(offset) =>
      if stack != [] && Last(stack).Choice? then
        Running(p + offset, s, Front(stack) + [Last(stack).(s := s, caplevel := |caps|)], caps)
      else Stuck
    case IBackCommit(offset) =>
      if stack != [] && Last(stack).Choice? && Last(stack).caplevel <= |caps| then
        Running(p + offset, Last(stack).s, Front(stack), caps[..Last(stack).caplevel])
      else Stuck
    case IFailTwice => if stack != [] then Failing(Front(stack), caps) else Stuck
    case IFail => Failing(stack, caps)
    case ICapture(op, idx, kind, off) =>
      if op.CloseCap? && caps == [] then Stuck
      else Running(p + 1, s, stack, DoCapture(op, idx, kind, off, s, caps))
    case IOpenCall(_) => Raised
    case CharsetWord => Stuck
  }

  /** The state after n turns; a halted state stays as it is. */
  function RunN(c: Code, x: seq<Byte>, st: State, n: nat): State
    decreases n
  {
    if n == 0 then st else RunN(c, x, Step(c, x, st), n - 1)
  }

  ghost predicate Reaches(c: Code, x: seq<Byte>, st: State, st2: State) {
    exists n: nat :: RunN(c, x, st, n) == st2
  }

  lemma {:induction false} RunAdd(c: Code, x: seq<Byte>, st: State, n: nat, m: nat)
    ensures RunN(c, x, st, n + m) == RunN(c, x, RunN(c, x, st, n), m)
    decreases n
  {
    if n > 0 {
      RunAdd(c, x, Step(c, x, st), n - 1, m);
    }
  }

  lemma {:induction false} RunHalted(c: Code, x: seq<Byte>, st: State, n: nat)
    requires st.Halted()
    ensures RunN(c, x, st, n) == st
    decreases n
  {
    if n > 0 {
      RunHalted(c, x, st, n - 1);
    }
  }

  lemma ReachesRefl(c: Code, x: seq<Byte>, st: State)
    ensures Reaches(c, x, st, st)
  {
    assert RunN(c, x, st, 0) == st;
  }

  lemma ReachesStep(c: Code, x: seq<Byte>, st: State)
    ensures Reaches(c, x, st, Step(c, x, st))
  {
    assert RunN(c, x, Step(c, x, st), 0) == Step(c, x, st);
    assert RunN(c, x, st, 1) == Step(c, x, st);
  }

  lemma ReachesTrans(c: Code, x: seq<Byte>, st1: State, st2: State, st3: State)
    requires Reaches(c, x, st1, st2) && Reaches(c, x, st2, st3)
    ensures Reaches(c, x, st1, st3)
  {
    var n: nat :| RunN(c, x, st1, n) == st2;
    var m: nat :| RunN(c, x, st2, m) == st3;
    RunAdd(c, x, st1, n, m);
  }

  /** Two halted states reached from one state are the same state. */
  lemma HaltUnique(c: Code, x: seq<Byte>, st: State, st1: State, st2: State)
    requires Reaches(c, x, st, st1) && Reaches(c, x, st, st2)
    requires st1.Halted() && st2.Halted()
    ensures st1 == st2
  {
    var n: nat :| RunN(c, x, st, n) == st1;
    var m: nat :| RunN(c, x, st, m) == st2;
    RunAdd(c, x, st, n, m);
    RunAdd(c, x, st, m, n);
    RunHalted(c, x, st1, m);
    RunHalted(c, x, st2, n);
  }

  /**
    The capture levels saved in the choice entries do not decrease up the stack, and none
    exceeds the number of captures.
   */
  ghost predicate LevelsOk(stack: seq<Entry>, top: nat) {
    && (forall i :: 0 <= i < |stack| && stack[i].Choice? ==> stack[i].caplevel <= top)
    && (forall i, j :: 0 <= i < j < |stack| && stack[i].Choice? && stack[j].Choice? ==>
        stack[i].caplevel <= stack[j].caplevel)
  }

  ghost predicate StateOk(st: State) {
    (st.Running? || st.Failing?) ==> LevelsOk(st.stack, |st.caps|)
  }

  lemma StepKeepsLevels(c: Code, x: seq<Byte>, st: State)
    requires StateOk(st)
    ensures StateOk(Step(c, x, st))
  {
    if st.Running? && st.p != GIVEUP && 0 <= st.s <= |x| {
      InstructionKeepsLevels(At(c, st.p), x, st.p, st.s, st.stack, st.caps);
    }
  }

  lemma InstructionKeepsLevels(i: Cell, x: seq<Byte>, p: int, s: int, stack: seq<Entry>, caps: seq<Capture>)
    requires 0 <= s <= |x| && LevelsOk(stack, |caps|)
    ensures StateOk(StepAt(i, x, p, s, stack, caps))
  {
  }

  /** Saved capture levels are ordered in every state that any code reaches. */
  lemma {:induction false} LevelsInvariant(c: Code, x: seq<Byte>, st: State, n: nat)
    requires StateOk(st)
    ensures StateOk(RunN(c, x, st, n))
    decreases n
  {
    if n > 0 {
      StepKeepsLevels(c, x, st);
      LevelsInvariant(c, x, Step(c, x, st), n - 1);
    }
  }

  datatype Option<T> = None | Some(value: T)

  /**
    What the assertions of the machine ask of a state: no assertion has failed, a return finds
    a call, the commits and IFailTwice find a choice, IEnd finds only the giveup entry, and
    the saved capture levels are in order.
   */
  ghost predicate Orderly(c: Code, st: State) {
    !st.Stuck? && StateOk(st) && (st.Running? && st.p != GIVEUP ==> EntryFound(At(c, st.p), st.stack))
  }

  predicate EntryFound(i: Cell, stack: seq<Entry>) {
    match i
    case IRet => stack != [] && Last(stack).Call?
    case ICommit(_) => stack != [] && Last(stack).Choice?
    case IPartialCommit(_) => stack != [] && Last(stack).Choice?
    case IBackCommit(_) => stack != [] && Last(stack).Choice?
    case IFailTwice => stack != [] && Last(stack).Choice?
    case IEnd => |stack| == 1 && stack[0].Choice? && stack[0].p == GIVEUP
    case _ => true
  }

  /** Every state that the run from st reaches is in order. */
  ghost predicate Disciplined(c: Code, x: seq<Byte>, st: State) {
    forall n: nat :: Orderly(c, RunN(c, x, st, n))
  }

  lemma {:induction false} RunRaised(c: Code, x: seq<Byte>, n: nat)
    ensures RunN(c, x, Raised, n) == Raised
    decreases n
  {
    if n > 0 { RunRaised(c, x, n - 1); }
  }

  /** A run that ends well takes a turn from every state before its end, and never a stuck one. */
  lemma NotStuck(c: Code, x: seq<Byte>, st: State, n: nat)
    requires var end := RunN(c, x, st, n); end.Matched? || end.NoMatch?
    ensures !Step(c, x, st).Stuck? && !Step(c, x, st).Raised?
    ensures !st.Halted() ==> n > 0 && RunN(c, x, st, n) == RunN(c, x, Step(c, x, st), n - 1)
    ensures Step(c, x, st).Halted() ==> RunN(c, x, st, n) == Step(c, x, st)
  {
    if n > 0 && Step(c, x, st).Halted() {
      RunHalted(c, x, Step(c, x, st), n - 1);
    }
    if n > 0 { RunRaised(c, x, n - 1); }
  }

  /** The code at label `fail`: drops the pending calls and resumes the latest choice. */
  method Backtrack(c: Code, x: seq<Byte>, stack0: seq<Entry>, caps0: seq<Capture>, ghost left0: nat)
    returns (p: int, s: int, stack: seq<Entry>, caps: seq<Capture>, ghost left: nat)
    requires var st := RunN(c, x, Failing(stack0, caps0), left0); st.Matched? || st.NoMatch?
    ensures left < left0
    ensures RunN(c, x, Running(p, s, stack, caps), left) == RunN(c, x, Failing(stack0, caps0), left0)
    ensures |stack| < |stack0| && stack == stack0[..|stack|] && (forall k :: |stack| < k < |stack0| ==> stack0[k].Call?)
    ensures var top := stack0[|stack|];
            top.Choice? && top.caplevel <= |caps0| && p == top.p && s == top.s && caps == caps0[..top.caplevel]
  {
    stack, left := stack0, left0;
    while stack != [] && Last(stack).Call?
      invariant left <= left0
      invariant |stack| <= |stack0| && stack == stack0[..|stack|]
                && (forall k :: |stack| <= k < |stack0| ==> stack0[k].Call?)
      invariant RunN(c, x, Failing(stack, caps0), left) == RunN(c, x, Failing(stack0, caps0), left0)
    {
      stack, left := Front(stack), left - 1;
    }
    NotStuck(c, x, Failing(stack, caps0), left);
    p, s, caps := Last(stack).p, Last(stack).s, caps0[..Last(stack).caplevel];
    stack, left := Front(stack), left - 1;
  }

  /** One instruction other than IEnd and IGiveup: the cases of the switch in `match`. */
  method Turn(c: Code, x: seq<Byte>, p0: int, s0: int, stack0: seq<Entry>, caps0: seq<Capture>)
    returns (p: int, s: int, stack: seq<Entry>, caps: seq<Capture>, failed: bool)
    requires p0 != GIVEUP && !At(c, p0).IEnd?
    requires !Step(c, x, Running(p0, s0, stack0, caps0)).Stuck? && !Step(c, x, Running(p0, s0, stack0, caps0)).Raised?
    ensures Step(c, x, Running(p0, s0, stack0, caps0)) ==
            if failed then Failing(stack, caps) else Running(p, s, stack, caps)
  {
    p, s, stack, caps, failed := p0, s0, stack0, caps0, false;
    match At(c, p) {
      case IRet =>
        p, stack := Last(stack).ret, Front(stack);
      case ICheck(ck, offset) =>
        if Passes(ck, x, s) {
          p, s := p + CheckSize(ck), s + CheckStep(ck);
        } else if offset != 0 {
          p := p + offset;
        } else {
          failed := true;
        }
      case IBack(k) =>
        if k > s {
          failed := true;
        } else {
          p, s := p + 1, s - k;
        }
      case ISpan(cs) =>
        while s < |x| && x[s] in cs
          invariant s0 <= s <= |x| && SpanEnd(cs, x, s) == SpanEnd(cs, x, s0)
        {
          s := s + 1;
        }
        p := p + CHARSET_INST_SIZE;
      case IJmp(offset) =>
        p := p + offset;
      case IChoice(offset, aux) =>
        stack := stack + [Choice(p + offset, s - aux, |caps|)];
        p := p + 1;
      case ICall(offset) =>
        stack := stack + [Call(p + 1)];
        p := p + offset;
      case ICommit(offset) =>
        stack := Front(stack);
        p := p + offset;
      case IPartialCommit(offset) =>
        stack := Front(stack) + [Last(stack).(s := s, caplevel := |caps|)];
        p := p + offset;
      case IBackCommit(offset) =>
        s, caps, stack := Last(stack).s, caps[..Last(stack).caplevel], Front(stack);
        p := p + offset;
      case IFailTwice =>
        stack := Front(stack);
        failed := true;
      case IFail =>
        failed := true;
      case ICapture(op, idx, kind, off) =>
        caps := DoCapture(op, idx, kind, off, s, caps);
        p := p + 1;
    }
  }

  /**
    The function `match`: it runs code c on subject x from position start with a stack, a
    capture list and the registers p and s.  The ghost argument n counts the turns of a run
    that halts without a failed assertion.
   */
  method Match(c: Code, x: seq<Byte>, start: nat, ghost n: nat) returns (r: Option<int>, caps: seq<Capture>)
    requires RunN(c, x, Init(start), n).Matched? || RunN(c, x, Init(start), n).NoMatch?
    ensures r.Some? ==> RunN(c, x, Init(start), n) == Matched(r.value, caps)
    ensures r.None? ==> RunN(c, x, Init(start), n) == NoMatch
  {
    var p, s := 0, start;
    var stack: seq<Entry> := [Choice(GIVEUP, s, 0)];
    caps := [];
    ghost var left := n;
    while true
      invariant RunN(c, x, Running(p, s, stack, caps), left) == RunN(c, x, Init(start), n)
      decreases left
    {
      NotStuck(c, x, Running(p, s, stack, caps), left);
      left := left - 1;
      if p == GIVEUP {
        return None, [];
      }
      if At(c, p).IEnd? {
        return Some(s), caps;
      }
      var failed;
      p, s, stack, caps, failed := Turn(c, x, p, s, stack, caps);
      if failed {
        p, s, stack, caps, left := Backtrack(c, x, stack, caps, left);
      }
    }
  }
}
