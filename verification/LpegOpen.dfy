/**
  The machine on code that refers to rules outside it.  What the subject says of a rule happens
  in one turn; on a string alone it is the machine itself.
 */
module LpegOpen {
  import opened LpegCode
  import opened LpegMachine
  import opened LpegPeg

  /** One turn, in which a reference does what the subject says. */
  function OpenStep(c: Code, x: Subject, st: State): State {
    if st.Running? && st.p != GIVEUP && 0 <= st.s <= |x.s| && At(c, st.p).IOpenCall? then
      match Referred(x, At(c, st.p).key, st.s)
      case Ok(j, cs) => Running(st.p + 1, j, st.stack, st.caps + cs)
      case Fail => Failing(st.stack, st.caps)
      case Diverge => Raised
    else Step(c, x.s, st)
  }

  function OpenRun(c: Code, x: Subject, st: State, n: nat): State
    decreases n
  {
    if n == 0 then st else OpenRun(c, x, OpenStep(c, x, st), n - 1)
  }

  ghost predicate OpenReaches(c: Code, x: Subject, st: State, st2: State) {
    exists n: nat :: OpenRun(c, x, st, n) == st2
  }

  lemma {:induction false} OpenAdd(c: Code, x: Subject, st: State, n: nat, m: nat)
    ensures OpenRun(c, x, st, n + m) == OpenRun(c, x, OpenRun(c, x, st, n), m)
    decreases n
  {
    hide OpenStep;
    if n > 0 { OpenAdd(c, x, OpenStep(c, x, st), n - 1, m); }
  }

  lemma {:induction false} OpenHalted(c: Code, x: Subject, st: State, n: nat)
    requires st.Halted()
    ensures OpenRun(c, x, st, n) == st
    decreases n
  {
    if n > 0 { OpenHalted(c, x, st, n - 1); }
  }

  lemma {:induction false} OpenRaised(c: Code, x: Subject, n: nat)
    ensures OpenRun(c, x, Raised, n) == Raised
    decreases n
  {
    if n > 0 { OpenRaised(c, x, n - 1); }
  }

  lemma OpenRefl(c: Code, x: Subject, st: State)
    ensures OpenReaches(c, x, st, st)
  {
    assert OpenRun(c, x, st, 0) == st;
  }

  lemma OpenOne(c: Code, x: Subject, st: State)
    ensures OpenReaches(c, x, st, OpenStep(c, x, st))
  {
    hide OpenStep;
    assert OpenRun(c, x, OpenStep(c, x, st), 0) == OpenStep(c, x, st);
    assert OpenRun(c, x, st, 1) == OpenStep(c, x, st);
  }

  lemma OpenTrans(c: Code, x: Subject, st1: State, st2: State, st3: State)
    requires OpenReaches(c, x, st1, st2) && OpenReaches(c, x, st2, st3)
    ensures OpenReaches(c, x, st1, st3)
  {
    hide OpenStep;
    var n: nat :| OpenRun(c, x, st1, n) == st2;
    var m: nat :| OpenRun(c, x, st2, m) == st3;
    OpenAdd(c, x, st1, n, m);
  }

  lemma OpenUnique(c: Code, x: Subject, st: State, st1: State, st2: State)
    requires OpenReaches(c, x, st, st1) && OpenReaches(c, x, st, st2) && st1.Halted() && st2.Halted()
    ensures st1 == st2
  {
    hide OpenStep;
    var n: nat :| OpenRun(c, x, st, n) == st1;
    var m: nat :| OpenRun(c, x, st, m) == st2;
    OpenAdd(c, x, st, n, m);
    OpenAdd(c, x, st, m, n);
    OpenHalted(c, x, st1, m);
    OpenHalted(c, x, st2, n);
  }

  /** On a string alone it is the machine itself. */
  lemma BareStep(c: Code, s: seq<Byte>, st: State)
    ensures OpenStep(c, Bare(s), st) == Step(c, s, st)
  {
  }

  lemma {:induction false} BareRun(c: Code, s: seq<Byte>, st: State, n: nat)
    ensures OpenRun(c, Bare(s), st, n) == RunN(c, s, st, n)
    decreases n
  {
    hide OpenStep, Step, Bare;
    if n > 0 {
      BareStep(c, s, st);
      BareRun(c, s, Step(c, s, st), n - 1);
    }
  }

  lemma BareReaches(c: Code, s: seq<Byte>, st: State, st2: State)
    ensures OpenReaches(c, Bare(s), st, st2) <==> Reaches(c, s, st, st2)
  {
    hide OpenRun, RunN, Bare;
    if OpenReaches(c, Bare(s), st, st2) {
      var n: nat :| OpenRun(c, Bare(s), st, n) == st2;
      BareRun(c, s, st, n);
    }
    if Reaches(c, s, st, st2) {
      var n: nat :| RunN(c, s, st, n) == st2;
      BareRun(c, s, st, n);
    }
  }
}
