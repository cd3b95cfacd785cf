/**
  Linking a grammar: open calls become calls, tail calls become jumps, and jumps are threaded.
  Neither change alters the result of any run.
 */
module LpegLink {
  import opened LpegCode
  import opened LpegMachine
  import opened LpegBuild
  import opened LpegInPlace

  // ---- simulation ----

  /** Every turn of c2 is matched by one or more turns of c1. */
  ghost predicate Simulates(c1: Code, c2: Code, x: seq<Byte>, R: (State, State) -> bool) {
    forall a: State, b: State | R(a, b) && !b.Halted() :: Matches(c1, c2, x, R, a, b)
  }

  ghost predicate Matches(c1: Code, c2: Code, x: seq<Byte>, R: (State, State) -> bool, a: State, b: State) {
    exists m: nat :: m > 0 && R(RunN(c1, x, a, m), Step(c2, x, b))
  }

  /** Related states halt together, and only in the same state. */
  ghost predicate Agreeing(R: (State, State) -> bool) {
    forall a: State, b: State | R(a, b) :: (a.Halted() <==> b.Halted()) && (b.Halted() ==> a == b)
  }

  lemma {:induction false} RunSim(c1: Code, c2: Code, x: seq<Byte>, R: (State, State) -> bool, a: State, b: State,
      n: nat) returns (m: nat)
    requires Simulates(c1, c2, x, R) && R(a, b)
    ensures R(RunN(c1, x, a, m), RunN(c2, x, b, n)) && (m >= n || RunN(c2, x, b, n).Halted())
    decreases n
  {
    if b.Halted() {
      RunHalted(c2, x, b, n);
      m := 0;
    } else if n == 0 {
      m := 0;
    } else {
      assert Matches(c1, c2, x, R, a, b);
      var k: nat :| k > 0 && R(RunN(c1, x, a, k), Step(c2, x, b));
      var k2 := RunSim(c1, c2, x, R, RunN(c1, x, a, k), Step(c2, x, b), n - 1);
      RunAdd(c1, x, a, k, k2);
      m := k + k2;
    }
  }

  lemma SameResults(c1: Code, c2: Code, x: seq<Byte>, R: (State, State) -> bool, a: State, b: State, h: State)
    requires Simulates(c1, c2, x, R) && Agreeing(R) && R(a, b) && h.Halted()
    ensures Reaches(c1, x, a, h) <==> Reaches(c2, x, b, h)
  {
    hide RunN;
    if Reaches(c2, x, b, h) {
      var n: nat :| RunN(c2, x, b, n) == h;
      var m := RunSim(c1, c2, x, R, a, b, n);
    }
    if Reaches(c1, x, a, h) {
      var n: nat :| RunN(c1, x, a, n) == h;
      var m := RunSim(c1, c2, x, R, a, b, n);
      var b2 := RunN(c2, x, b, n);
      if m >= n {
        RunAdd(c1, x, a, n, m - n);
        RunHalted(c1, x, h, m - n);
      } else {
        HaltUnique(c1, x, a, h, RunN(c1, x, a, m));
      }
    }
  }

  // ---- threading the jumps of any code ----

  /**
    No test is led back to itself, where its threaded offset of 0 would make it a check, and
    no jump leads to the address of giveup.
   */
  ghost predicate Linkable(c: Code) {
    && (forall i :: 0 <= i < |c| && IsTest(c[i]) ==> Target(c, i + c[i].offset, |c|) != i)
    && (forall i :: 0 <= i < |c| && c[i].IJmp? ==> i + c[i].offset != GIVEUP)
  }

  /** Unconditional jumps lead from word q to word q2. */
  ghost predicate Leads(c: Code, q: int, q2: int) {
    exists n: nat :: Target(c, q, n) == q2
  }

  lemma LeadsSelf(c: Code, q: int)
    ensures Leads(c, q, q)
  {
    assert Target(c, q, 0) == q;
  }

  ghost predicate EntryLeads(c: Code, e1: Entry, e2: Entry) {
    if e1.Call? then e1 == e2
    else e2.Choice? && e1.s == e2.s && e1.caplevel == e2.caplevel && Leads(c, e1.p, e2.p)
  }

  ghost predicate StackLeads(c: Code, stack1: seq<Entry>, stack2: seq<Entry>) {
    |stack1| == |stack2| && forall i :: 0 <= i < |stack1| ==> EntryLeads(c, stack1[i], stack2[i])
  }

  ghost predicate StateLeads(c: Code, a: State, b: State) {
    match a
    case Running(p, s, stack, caps) => b.Running? && Leads(c, p, b.p) && s == b.s && caps == b.caps
      && StackLeads(c, stack, b.stack)
    case Failing(stack, caps) => b.Failing? && caps == b.caps && StackLeads(c, stack, b.stack)
    case _ => a == b
  }

  /** Jumping on, the first machine arrives where the second one is. */
  lemma {:induction false} CatchUp(c: Code, x: seq<Byte>, q: int, n: nat, s: int, stack: seq<Entry>,
      caps: seq<Capture>) returns (m: nat)
    requires 0 <= s <= |x|
    ensures RunN(c, x, Running(q, s, stack, caps), m) == Running(Target(c, q, n), s, stack, caps)
    decreases n
  {
    if n == 0 || !At(c, q).IJmp? {
      m := 0;
    } else {
      var k := CatchUp(c, x, q + At(c, q).offset, n - 1, s, stack, caps);
      m := k + 1;
    }
  }

  lemma ThreadedLeads(c: Code, i: int)
    requires 0 <= i < |c| && IsJmp(c[i])
    ensures OptJumps(c)[i] == SetOffset(c[i], OptJumps(c)[i].offset)
            && Leads(c, i + c[i].offset, i + OptJumps(c)[i].offset)
  {
  }

  lemma PushLeads(c: Code, stack1: seq<Entry>, stack2: seq<Entry>, e1: Entry, e2: Entry)
    requires StackLeads(c, stack1, stack2) && EntryLeads(c, e1, e2)
    ensures StackLeads(c, stack1 + [e1], stack2 + [e2])
  {
  }

  lemma PopLeads(c: Code, stack1: seq<Entry>, stack2: seq<Entry>)
    requires StackLeads(c, stack1, stack2) && stack1 != []
    ensures EntryLeads(c, Last(stack1), Last(stack2)) && StackLeads(c, Front(stack1), Front(stack2))
  {
  }

  /** One instruction of the threaded code does what the same instruction of the other code does. */
  lemma InstructionLeads(c: Code, x: seq<Byte>, p: int, s: int, stack1: seq<Entry>, stack2: seq<Entry>,
      caps: seq<Capture>)
    requires 0 <= s <= |x| && StackLeads(c, stack1, stack2) && Linkable(c)
    ensures StateLeads(c, StepAt(At(c, p), x, p, s, stack1, caps), StepAt(At(OptJumps(c), p), x, p, s, stack2, caps))
  {
    hide Leads, StackLeads, OptJumps, EntryLeads;
    SelfLeads(c, stack1, stack2);
    SameKind(c, p);
    var i := At(c, p);
    match i
    case IChoice(offset, aux) =>
      var e1, e2 := Choice(p + offset, s - aux, |caps|), Choice(p + At(OptJumps(c), p).offset, s - aux, |caps|);
      ChoiceLeads(c, e1, e2);
      PushLeads(c, stack1, stack2, e1, e2);
    case ICall(_) =>
      CallLeads(c, Call(p + 1));
      PushLeads(c, stack1, stack2, Call(p + 1), Call(p + 1));
    case IPartialCommit(_) => PartialLeads(c, s, stack1, stack2, caps);
    case _ =>
  }

  lemma ChoiceLeads(c: Code, e1: Entry, e2: Entry)
    requires e1.Choice? && e2.Choice? && e1.s == e2.s && e1.caplevel == e2.caplevel && Leads(c, e1.p, e2.p)
    ensures EntryLeads(c, e1, e2)
  {
  }

  lemma CallLeads(c: Code, e: Entry)
    requires e.Call?
    ensures EntryLeads(c, e, e)
  {
  }

  lemma PartialLeads(c: Code, s: int, stack1: seq<Entry>, stack2: seq<Entry>, caps: seq<Capture>)
    requires StackLeads(c, stack1, stack2)
    ensures stack1 != [] && Last(stack1).Choice? ==>
            Last(stack2).Choice?
                && StackLeads(c, Front(stack1) + [Last(stack1).(s := s, caplevel := |caps|)],
                              Front(stack2) + [Last(stack2).(s := s, caplevel := |caps|)])
  {
    hide Leads;
  }

  /** What related stacks have in common, and the words that follow an instruction. */
  lemma SelfLeads(c: Code, stack1: seq<Entry>, stack2: seq<Entry>)
    requires StackLeads(c, stack1, stack2)
    ensures forall q :: Leads(c, q, q)
    ensures |stack1| == |stack2|
    ensures stack1 != [] ==> StackLeads(c, Front(stack1), Front(stack2)) && (Last(stack1).Call? <==> Last(stack2).Call?)
    ensures stack1 != [] && Last(stack1).Call? ==> Last(stack1) == Last(stack2)
    ensures stack1 != [] && Last(stack1).Choice? ==>
      Last(stack1).s == Last(stack2).s && Last(stack1).caplevel == Last(stack2).caplevel
        && Leads(c, Last(stack1).p, Last(stack2).p)
  {
    hide Leads;
    forall q ensures Leads(c, q, q) { LeadsSelf(c, q); }
    if stack1 != [] { PopLeads(c, stack1, stack2); }
  }

  lemma SameKind(c: Code, p: int)
    requires Linkable(c)
    ensures var i, j := At(c, p), At(OptJumps(c), p);
            if IsJmp(i) then HasOffset(j) && j == SetOffset(i, j.offset) && Leads(c, p + i.offset, p + j.offset)
              else j == i
    ensures At(c, p).ICheck? ==> At(OptJumps(c), p).ICheck? && (At(c, p).offset == 0 ==> At(OptJumps(c), p).offset == 0)
    ensures At(c, p).ICheck? && At(c, p).offset != 0 ==> At(OptJumps(c), p).offset != 0
  {
    hide Leads;
    if 0 <= p < |c| && IsJmp(c[p]) { ThreadedLeads(c, p); }
  }

  lemma TurnLeads(c: Code, x: seq<Byte>, a: State, b: State) returns (m: nat)
    requires StateLeads(c, a, b) && !b.Halted() && Linkable(c)
    ensures m > 0 && StateLeads(c, RunN(c, x, a, m), Step(OptJumps(c), x, b))
  {
    hide StackLeads, OptJumps, StepAt;
    match a
    case Running(q, s, stack1, caps) =>
      if 0 <= s <= |x| {
        var n: nat :| Target(c, q, n) == b.p;
        var k := CatchUp(c, x, q, n, s, stack1, caps);
        RunAdd(c, x, a, k, 1);
        assert RunN(c, x, Running(b.p, s, stack1, caps), 1) == Step(c, x, Running(b.p, s, stack1, caps));
        SelfLeads(c, stack1, b.stack);
        InstructionLeads(c, x, b.p, s, stack1, b.stack, caps);
        m := k + 1;
      } else {
        var n: nat :| Target(c, q, n) == b.p;
        GiveupOnly(c, q, n);
        OutOfRange(c, x, a, b);
        m := 1;
      }
    case Failing(stack1, caps) =>
      SelfLeads(c, stack1, b.stack);
      assert RunN(c, x, a, 1) == Step(c, x, a);
      m := 1;
    case Raised =>
      assert RunN(c, x, a, 1) == Step(c, x, a);
      m := 1;
  }

  lemma {:induction false} GiveupOnly(c: Code, q: int, n: nat)
    requires Linkable(c)
    ensures Target(c, q, n) == GIVEUP <==> q == GIVEUP
    decreases n
  {
    if n > 0 && At(c, q).IJmp? { GiveupOnly(c, q + At(c, q).offset, n - 1); }
  }

  /** A position outside the subject stops both machines, unless the address is the one of giveup. */
  lemma OutOfRange(c: Code, x: seq<Byte>, a: State, b: State)
    requires StateLeads(c, a, b) && a.Running? && !(0 <= a.s <= |x|) && (a.p == GIVEUP <==> b.p == GIVEUP)
    ensures StateLeads(c, RunN(c, x, a, 1), Step(OptJumps(c), x, b))
  {
    assert RunN(c, x, a, 1) == Step(c, x, a);
  }

  /** optimizejumps: threading the jumps of any linkable code changes the result of no run. */
  lemma ThreadingKeepsRuns(c: Code, x: seq<Byte>, i: int, h: State)
    requires Linkable(c) && h.Halted()
    ensures Reaches(c, x, Init(i), h) <==> Reaches(OptJumps(c), x, Init(i), h)
  {
    hide Reaches, OptJumps, RunN;
    var R: (State, State) -> bool := (a, b) => StateLeads(c, a, b);
    forall a: State, b: State | R(a, b) && !b.Halted() ensures Matches(c, OptJumps(c), x, R, a, b) {
      var m := TurnLeads(c, x, a, b);
      assert R(RunN(c, x, a, m), Step(OptJumps(c), x, b));
    }
    LeadsSelf(c, 0);
    LeadsSelf(c, GIVEUP);
    assert R(Init(i), Init(i));
    SameResults(c, OptJumps(c), x, R, Init(i), Init(i), h);
  }

  // ---- calls of a grammar ----

  /** The code in which every open call calls its rule. */
  function AllCalls(c: Code, rule: int -> int): (r: Code)
    ensures |r| == |c|
  {
    seq(|c|, i requires 0 <= i < |c| => if c[i].IOpenCall? then ICall(rule(c[i].key) - i) else c[i])
  }

  /** fix_l's corrections up to word m: a call whose continuation leads to a return becomes a jump. */
  function Linked(c: Code, rule: int -> int, m: nat): (r: Code)
    requires m <= |c|
    ensures |r| == |c|
  {
    if m == 0 then c
    else
      var d := Linked(c, rule, m - 1);
      if c[m - 1].IOpenCall? then d[m - 1 := LinkedCell(d, m - 1, rule(c[m - 1].key))] else d
  }

  function LinkedCell(d: Code, i: nat, pos: int): Cell {
    if At(d, Target(d, i + 1, |d|)).IRet? then IJmp(pos - i) else ICall(pos - i)
  }

  /** The words that linking has not reached, and those that it has. */
  lemma {:induction false} LinkedWord(c: Code, rule: int -> int, m: nat, i: nat)
    requires m <= |c| && i < |c|
    ensures m <= i || !c[i].IOpenCall? ==> Linked(c, rule, m)[i] == c[i]
    ensures i < m && c[i].IOpenCall? ==> Linked(c, rule, m)[i] == LinkedCell(Linked(c, rule, i), i, rule(c[i].key))
    decreases m
  {
    if m > 0 { LinkedWord(c, rule, m - 1, i); }
  }

  /** Is the call at word i one that linking turned into a jump? */
  ghost predicate TailCall(c: Code, rule: int -> int, i: int) {
    0 <= i < |c| && c[i].IOpenCall? && At(Linked(c, rule, i), Target(Linked(c, rule, i), i + 1, |c|)).IRet?
  }

  lemma DisciplineGoesOn(c: Code, x: seq<Byte>, st: State, n: nat)
    requires Disciplined(c, x, st)
    ensures Disciplined(c, x, RunN(c, x, st, n)) && Orderly(c, st) && !Step(c, x, st).Stuck?
  {
    forall m: nat ensures Orderly(c, RunN(c, x, RunN(c, x, st, n), m)) {
      RunAdd(c, x, st, n, m);
    }
    assert RunN(c, x, st, 0) == st;
    assert RunN(c, x, st, 1) == Step(c, x, st);
  }

  /** stack2 is stack1 without some of the entries of tail calls. */
  ghost predicate Thins(c: Code, rule: int -> int, stack1: seq<Entry>, stack2: seq<Entry>)
    decreases |stack1|
  {
    if stack1 == [] then stack2 == []
    else
      || (Last(stack1).Call? && TailCall(c, rule, Last(stack1).ret - 1) && Thins(c, rule, Front(stack1), stack2))
      || (stack2 != [] && Last(stack1) == Last(stack2) && Thins(c, rule, Front(stack1), Front(stack2)))
  }

  ghost predicate StateThins(c: Code, rule: int -> int, a: State, b: State) {
    match a
    case Running(p, s, stack, caps) => b.Running? && p == b.p && s == b.s && caps == b.caps
      && Thins(c, rule, stack, b.stack)
    case Failing(stack, caps) => b.Failing? && caps == b.caps && Thins(c, rule, stack, b.stack)
    case _ => a == b
  }

  lemma RunOne(c: Code, x: seq<Byte>, st: State)
    ensures RunN(c, x, st, 1) == Step(c, x, st)
  {
    assert RunN(c, x, Step(c, x, st), 0) == Step(c, x, st);
  }

  /** Linked jumps and the calls behind them lead to words of the code. */
  ghost predicate InCode(c: Code, rule: int -> int) {
    forall i :: 0 <= i < |c| && (c[i].IJmp? || c[i].IOpenCall?) ==> i + AllCalls(c, rule)[i].offset != GIVEUP
  }

  /** A jump of the linked code is a jump of the other code too, or a tail call. */
  lemma HopIs(c: Code, rule: int -> int, m: nat, q: int)
    requires m <= |c| && InCode(c, rule)
    ensures var i, j := At(Linked(c, rule, m), q), At(AllCalls(c, rule), q);
            && (i.IJmp? ==>
                  q + i.offset != GIVEUP && (j == i || (j == ICall(i.offset) && q < m && TailCall(c, rule, q))))
            && (i.IRet? ==> j == i)
  {
    if 0 <= q < |c| { LinkedWord(c, rule, m, q); }
  }

  lemma Hop(c: Code, x: seq<Byte>, q: int, s: int, stack: seq<Entry>, caps: seq<Capture>)
    requires 0 <= s <= |x| && q != GIVEUP
    ensures At(c, q).IJmp? ==> RunN(c, x, Running(q, s, stack, caps), 1) == Running(q + At(c, q).offset, s, stack, caps)
    ensures At(c, q).ICall? ==>
            RunN(c, x, Running(q, s, stack, caps), 1) ==
              Running(q + At(c, q).offset, s, stack + [Call(q + 1)], caps)
    ensures At(c, q).IRet? && stack != [] && Last(stack).Call? ==>
            RunN(c, x, Running(q, s, stack, caps), 1) == Running(Last(stack).ret, s, Front(stack), caps)
  {
    RunOne(c, x, Running(q, s, stack, caps));
  }

  /** From the continuation of a tail call the machine finds its way to a return, with the stack as it was. */
  lemma {:induction false} WayToReturn(c: Code, rule: int -> int, x: seq<Byte>, m: nat, q: int, n: nat, s: int,
      stack: seq<Entry>, caps: seq<Capture>)
    returns (k: nat, r: int)
    requires m <= |c| && 0 <= s <= |x| && q != GIVEUP && InCode(c, rule)
    requires At(Linked(c, rule, m), Target(Linked(c, rule, m), q, n)).IRet?
    ensures RunN(AllCalls(c, rule), x, Running(q, s, stack, caps), k) == Running(r, s, stack, caps)
    ensures r != GIVEUP && At(AllCalls(c, rule), r).IRet?
    decreases m, n
  {
    hide AllCalls, Linked, RunN, At;
    var c0, d := AllCalls(c, rule), Linked(c, rule, m);
    HopIs(c, rule, m, q);
    if n == 0 || !At(d, q).IJmp? {
      k, r := 0, q;
      RunZero(c0, x, Running(q, s, stack, caps));
    } else {
      var q1 := q + At(d, q).offset;
      var st := Running(q, s, stack, caps);
      Hop(c0, x, q, s, stack, caps);
      if At(c0, q).IJmp? {
        var k1, r1 := WayToReturn(c, rule, x, m, q1, n - 1, s, stack, caps);
        RunAdd(c0, x, st, 1, k1);
        k, r := 1 + k1, r1;
      } else {
        TailIs(c, rule, q);
        var k1, r1 := WayToReturn(c, rule, x, m, q1, n - 1, s, stack + [Call(q + 1)], caps);
        RunAdd(c0, x, st, 1, k1);
        Hop(c0, x, r1, s, stack + [Call(q + 1)], caps);
        assert Front(stack + [Call(q + 1)]) == stack;
        RunAdd(c0, x, st, 1 + k1, 1);
        var k2, r2 := WayToReturn(c, rule, x, q, q + 1, |c|, s, stack, caps);
        RunAdd(c0, x, st, 2 + k1, k2);
        k, r := 2 + k1 + k2, r2;
      }
    }
  }

  lemma RunZero(c: Code, x: seq<Byte>, st: State)
    ensures RunN(c, x, st, 0) == st
  {
  }

  lemma TailIs(c: Code, rule: int -> int, i: int)
    requires TailCall(c, rule, i)
    ensures 0 <= i < |c| && At(Linked(c, rule, i), Target(Linked(c, rule, i), i + 1, |c|)).IRet?
  {
  }

  // ---- the linked code is simulated by the code with all its calls ----

  /** What the last linked code has at word p. */
  lemma FinalWord(c: Code, rule: int -> int, p: int)
    ensures At(Linked(c, rule, |c|), p) == if TailCall(c, rule, p) then IJmp(rule(c[p].key) - p)
            else At(AllCalls(c, rule), p)
    ensures TailCall(c, rule, p) ==> At(AllCalls(c, rule), p) == ICall(rule(c[p].key) - p)
  {
    if 0 <= p < |c| {
      LinkedWord(c, rule, |c|, p);
      if c[p].IOpenCall? { TailCell(c, rule, p); }
      CallWord(c, rule, p);
      hide AllCalls, Linked, LinkedCell;
    }
  }

  lemma TailCell(c: Code, rule: int -> int, p: nat)
    requires p < |c| && c[p].IOpenCall?
    ensures LinkedCell(Linked(c, rule, p), p, rule(c[p].key)) == if TailCall(c, rule, p) then IJmp(rule(c[p].key) - p)
            else ICall(rule(c[p].key) - p)
  {
    hide Linked, Target;
  }

  lemma CallWord(c: Code, rule: int -> int, p: nat)
    requires p < |c|
    ensures AllCalls(c, rule)[p] == if c[p].IOpenCall? then ICall(rule(c[p].key) - p) else c[p]
  {
  }

  /** The top of the longer stack is dropped, or is the top of both. */
  lemma TopThins(c: Code, rule: int -> int, stack1: seq<Entry>, stack2: seq<Entry>)
    requires Thins(c, rule, stack1, stack2)
    ensures stack1 == [] ==> stack2 == []
    ensures stack1 != [] && Last(stack1).Choice? ==>
            stack2 != [] && Last(stack1) == Last(stack2) && Thins(c, rule, Front(stack1), Front(stack2))
    ensures |stack2| <= |stack1|
    decreases |stack1|
  {
    if stack1 != [] {
      if Last(stack1).Call? && TailCall(c, rule, Last(stack1).ret - 1) && Thins(c, rule, Front(stack1), stack2) {
        TopThins(c, rule, Front(stack1), stack2);
      } else {
        TopThins(c, rule, Front(stack1), Front(stack2));
      }
    }
  }

  lemma PushThins(c: Code, rule: int -> int, stack1: seq<Entry>, stack2: seq<Entry>, e: Entry)
    requires Thins(c, rule, stack1, stack2)
    ensures Thins(c, rule, stack1 + [e], stack2 + [e])
    ensures e.Call? && TailCall(c, rule, e.ret - 1) ==> Thins(c, rule, stack1 + [e], stack2)
  {
    assert Front(stack1 + [e]) == stack1 && Front(stack2 + [e]) == stack2;
  }

  /** An instruction other than a return or a tail call. */
  lemma InstructionThins(c: Code, rule: int -> int, i: Cell, x: seq<Byte>, p: int, s: int, stack1: seq<Entry>,
      stack2: seq<Entry>, caps: seq<Capture>)
    requires 0 <= s <= |x| && Thins(c, rule, stack1, stack2) && !i.IRet?
    requires !StepAt(i, x, p, s, stack1, caps).Stuck?
    requires i.IFailTwice? ==> stack1 != [] && Last(stack1).Choice?
    requires i.IEnd? ==> |stack1| == 1 && stack1[0].Choice?
    ensures StateThins(c, rule, StepAt(i, x, p, s, stack1, caps), StepAt(i, x, p, s, stack2, caps))
  {
    hide Thins;
    TopThins(c, rule, stack1, stack2);
    match i
    case IChoice(offset, aux) => PushThins(c, rule, stack1, stack2, Choice(p + offset, s - aux, |caps|));
    case ICall(_) => PushThins(c, rule, stack1, stack2, Call(p + 1));
    case IPartialCommit(_) =>
      PushThins(c, rule, Front(stack1), Front(stack2), Last(stack1).(s := s, caplevel := |caps|));
    case _ =>
  }

  /** A return of the linked code is one or more returns of the other code, through the tail calls that it drops. */
  lemma {:induction false} ReturnThins(c: Code, rule: int -> int, x: seq<Byte>, p: int, s: int, stack1: seq<Entry>,
      stack2: seq<Entry>, caps: seq<Capture>)
    returns (m: nat)
    requires Thins(c, rule, stack1, stack2) && InCode(c, rule) && p != GIVEUP && At(AllCalls(c, rule), p).IRet?
    requires Disciplined(AllCalls(c, rule), x, Running(p, s, stack1, caps)) && 0 <= s <= |x|
    ensures m > 0
            && StateThins(c, rule, RunN(AllCalls(c, rule), x, Running(p, s, stack1, caps), m),
              StepAt(IRet, x, p, s, stack2, caps))
    decreases |stack1|
  {
    hide AllCalls, RunN, Linked, Disciplined;
    var c0, st := AllCalls(c, rule), Running(p, s, stack1, caps);
    DisciplineGoesOn(c0, x, st, 1);
    Hop(c0, x, p, s, stack1, caps);
    var e := Last(stack1);
    if e.Call? && TailCall(c, rule, e.ret - 1) && Thins(c, rule, Front(stack1), stack2) {
      TailIs(c, rule, e.ret - 1);
      var k, r := WayToReturn(c, rule, x, e.ret - 1, e.ret, |c|, s, Front(stack1), caps);
      RunAdd(c0, x, st, 1, k);
      DisciplineGoesOn(c0, x, st, 1 + k);
      var k2 := ReturnThins(c, rule, x, r, s, Front(stack1), stack2, caps);
      RunAdd(c0, x, st, 1 + k, k2);
      m := 1 + k + k2;
    } else {
      m := 1;
    }
  }

  lemma {:induction false} FailingThins(c: Code, rule: int -> int, x: seq<Byte>, stack1: seq<Entry>,
      stack2: seq<Entry>, caps: seq<Capture>)
    returns (m: nat)
    requires Thins(c, rule, stack1, stack2) && Disciplined(AllCalls(c, rule), x, Failing(stack1, caps))
    ensures m > 0
    ensures StateThins(c, rule, RunN(AllCalls(c, rule), x, Failing(stack1, caps), m),
            Step(Linked(c, rule, |c|), x, Failing(stack2, caps)))
    decreases |stack1|
  {
    hide AllCalls, RunN, Linked, Disciplined;
    var c0, st := AllCalls(c, rule), Failing(stack1, caps);
    DisciplineGoesOn(c0, x, st, 1);
    RunOne(c0, x, st);
    var e := Last(stack1);
    if e.Call? && TailCall(c, rule, e.ret - 1) && Thins(c, rule, Front(stack1), stack2) {
      var k := FailingThins(c, rule, x, Front(stack1), stack2, caps);
      RunAdd(c0, x, st, 1, k);
      m := 1 + k;
    } else {
      m := 1;
    }
  }

  lemma TurnThins(c: Code, rule: int -> int, x: seq<Byte>, a: State, b: State) returns (m: nat)
    requires StateThins(c, rule, a, b) && !b.Halted() && InCode(c, rule) && Disciplined(AllCalls(c, rule), x, a)
    ensures m > 0 && StateThins(c, rule, RunN(AllCalls(c, rule), x, a, m), Step(Linked(c, rule, |c|), x, b))
  {
    hide AllCalls, RunN, Linked, Disciplined, Thins, StepAt, At, TailCall;
    var c0 := AllCalls(c, rule);
    DisciplineGoesOn(c0, x, a, 0);
    match a
    case Failing(stack1, caps) => m := FailingThins(c, rule, x, stack1, b.stack, caps);
    case Raised => RunOne(c0, x, a); m := 1;
    case Running(p, s, stack1, caps) =>
      TopThins(c, rule, stack1, b.stack);
      FinalWord(c, rule, p);
      if p != GIVEUP && At(c0, p).IRet? {
        NotTail(c, rule, p);
        m := ReturnThins(c, rule, x, p, s, stack1, b.stack, caps);
      } else {
        RunOne(c0, x, a);
        m := 1;
        if p == GIVEUP {
        } else if TailCall(c, rule, p) {
          TailThins(c, rule, x, p, s, stack1, b.stack, caps);
        } else {
          InstructionThins(c, rule, At(c0, p), x, p, s, stack1, b.stack, caps);
        }
      }
  }

  lemma NotTail(c: Code, rule: int -> int, p: int)
    requires At(AllCalls(c, rule), p).IRet?
    ensures !TailCall(c, rule, p)
  {
  }

  lemma TailThins(c: Code, rule: int -> int, x: seq<Byte>, p: int, s: int, stack1: seq<Entry>, stack2: seq<Entry>,
      caps: seq<Capture>)
    requires 0 <= s <= |x| && TailCall(c, rule, p) && Thins(c, rule, stack1, stack2)
    ensures var pos := rule(c[p].key) - p;
            StateThins(c, rule, StepAt(ICall(pos), x, p, s, stack1, caps), StepAt(IJmp(pos), x, p, s, stack2, caps))
  {
    PushThins(c, rule, stack1, stack2, Call(p + 1));
  }

  /** Turning tail calls into jumps changes the result of no run that keeps the stack in order. */
  lemma LinkingKeepsRuns(c: Code, rule: int -> int, x: seq<Byte>, i: int, h: State)
    requires InCode(c, rule) && Disciplined(AllCalls(c, rule), x, Init(i)) && h.Halted()
    ensures Reaches(AllCalls(c, rule), x, Init(i), h) <==> Reaches(Linked(c, rule, |c|), x, Init(i), h)
  {
    hide Reaches, AllCalls, Linked, RunN, Disciplined, Thins;
    var c0, c1 := AllCalls(c, rule), Linked(c, rule, |c|);
    var R: (State, State) -> bool := (a, b) => StateThins(c, rule, a, b) && Disciplined(c0, x, a);
    forall a: State, b: State | R(a, b) && !b.Halted() ensures Matches(c0, c1, x, R, a, b) {
      var m := TurnThins(c, rule, x, a, b);
      DisciplineGoesOn(c0, x, a, m);
      assert R(RunN(c0, x, a, m), Step(c1, x, b));
    }
    OneEntry(c, rule, Choice(GIVEUP, i, 0));
    assert R(Init(i), Init(i));
    SameResults(c0, c1, x, R, Init(i), Init(i), h);
  }

  lemma OneEntry(c: Code, rule: int -> int, e: Entry)
    ensures Thins(c, rule, [e], [e])
  {
    assert Thins(c, rule, [], []);
    PushThins(c, rule, [], [], e);
    assert [] + [e] == [e];
  }

  /** fix_l: a grammar whose tail calls are jumps, all threaded, gives the results that its calls give. */
  lemma GrammarLinked(c: Code, rule: int -> int, x: seq<Byte>, i: int, h: State)
    requires InCode(c, rule) && Disciplined(AllCalls(c, rule), x, Init(i)) && Linkable(Linked(c, rule, |c|))
             && h.Halted()
    ensures Reaches(AllCalls(c, rule), x, Init(i), h) <==> Reaches(OptJumps(Linked(c, rule, |c|)), x, Init(i), h)
  {
    LinkingKeepsRuns(c, rule, x, i, h);
    ThreadingKeepsRuns(Linked(c, rule, |c|), x, i, h);
  }

  // ---- the loop of fix_l, in place ----

  /** Behind every open call the jumps linked before it come to an end, so that `target` returns. */
  ghost predicate CallsSettled(c: Code, rule: int -> int) {
    forall i :: 0 <= i < |c| && c[i].IOpenCall? ==> Settled(Linked(c, rule, i), i + 1, |c|)
  }

  lemma NoneLinked(c: Code, rule: int -> int)
    ensures Linked(c, rule, 0) == c
  {
  }

  /** One turn of the loop. */
  method LinkCallAt(a: array<Cell>, i: nat, rule: int -> int, ghost c: Code)
    requires IsPattern(a) && CallsSettled(c, rule) && i < |c| && CodeOf(a) == Linked(c, rule, i)
    modifies a
    ensures IsPattern(a) && CodeOf(a) == Linked(c, rule, i + 1)
  {
    hide Settled, Target;
    PatternWords(a);
    LinkedWord(c, rule, i, i);
    if a[i].IOpenCall? {
      var pos := rule(a[i].key);
      var t := FollowJumps(a, i + 1);
      a[i] := if a[t].IRet? then IJmp(pos - i) else ICall(pos - i);
    }
  }

  lemma {:induction false} LinkedWhole(c: Code, rule: int -> int, m: nat)
    requires Whole(c) && m <= |c|
    ensures Whole(Linked(c, rule, m))
  {
    var d := Linked(c, rule, m);
    forall i, j | 0 <= i < j < |d| && j < i + Size(d[i]) ensures d[j] == CharsetWord {
      LinkedWord(c, rule, m, i);
      LinkedWord(c, rule, m, j);
    }
    forall i | 0 <= i < |d| ensures i + Size(d[i]) <= |d| {
      LinkedWord(c, rule, m, i);
    }
  }

  /** Corrects the calls and threads the jumps of a grammar. */
  method LinkGrammar(a: array<Cell>, rule: int -> int)
    requires IsPattern(a) && Whole(CodeOf(a)) && CallsSettled(CodeOf(a), rule)
    requires AllSettled(Linked(CodeOf(a), rule, a.Length - 1))
    modifies a
    ensures IsPattern(a) && CodeOf(a) == OptJumps(Linked(old(CodeOf(a)), rule, a.Length - 1))
  {
    hide Linked, OptJumps, AllSettled, CallsSettled;
    var i: nat := 0;
    ghost var c := CodeOf(a);
    NoneLinked(c, rule);
    while i < a.Length - 1
      invariant IsPattern(a) && i < a.Length && CodeOf(a) == Linked(c, rule, i)
    {
      LinkCallAt(a, i, rule, c);
      i := i + 1;
    }
    LinkedWhole(c, rule, |c|);
    OptimizeJumps(a);
  }
}
