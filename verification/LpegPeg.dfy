/** Patterns and their meaning as Parsing Expression Grammars. */
module LpegPeg {
  import opened LpegCode
  import opened LpegMachine

  /**
    `Rept(a, n)` is the operator `a^n`; `Mark` is a capture of the empty string, such as
    `lpeg.Cp`, and `NonTerm(key)` is `lpeg.V(key)`.  The patterns are those built by `lpeg.P` from
    strings, numbers and booleans, by `lpeg.S` and `lpeg.R`, by the operators and by the captures.
    `idx` stands for the value that the ktable index of a capture selects.
   */
  datatype Patt =
    | Str(s: seq<Byte>)
    | Num(k: int)
    | Bool(truth: bool)
    | SetP(cs: Charset)
    | Seq(a: Patt, b: Patt)
    | Alt(a: Patt, b: Patt)
    | Diff(a: Patt, b: Patt)
    | Neg(a: Patt)
    | AndP(a: Patt)
    | Rept(a: Patt, n: int)
    | Capt(kind: Kind, idx: int, a: Patt)
    | Mark(fromTable: bool, kind: Kind, idx: int)
    | NonTerm(key: int)

  /**
    `Diverge` is no result at all: a repetition whose body matched the empty string, a reference
    that has no meaning, or one outside a grammar, which raises an error.
   */
  datatype Res = Fail | Ok(j: int, caps: seq<Capture>) | Diverge

  /** What a pattern is matched against: a string, and what references to rules mean at its positions. */
  datatype Subject = Subject(s: seq<Byte>, rules: (int, int) -> Res)

  /** A string for patterns outside grammars. */
  function Bare(s: seq<Byte>): Subject {
    Subject(s, (key, i) => Diverge)
  }

  /** No entry is an open capture for a close instruction to fold. */
  predicate NoneOpen(cs: seq<Capture>) {
    cs == [] || Last(cs).siz != 0
  }

  /** The meaning of a reference, which moves forward and leaves no capture open. */
  function Referred(x: Subject, key: int, i: int): (r: Res)
    ensures r.Ok? ==> i <= r.j <= |x.s| && NoneOpen(r.caps)
  {
    var r := x.rules(key, i);
    if r.Ok? && !(i <= r.j <= |x.s| && NoneOpen(r.caps)) then Diverge else r
  }

  function Prepend(cs: seq<Capture>, r: Res): Res {
    match r
    case Ok(j, caps) => Ok(j, cs + caps)
    case _ => r
  }

  /** The entries a capture leaves for a match from i to j whose inner captures are cs. */
  function Wrap(kind: Kind, idx: int, i: int, j: int, cs: seq<Capture>): seq<Capture> {
    if cs == [] && j - i < UCHAR_MAX then [Capture(i, idx, kind, j - i + 1)]
    else [Capture(i, idx, kind, 0)] + cs + [Capture(j, 0, Cclose, 1)]
  }

  /** The meaning of pattern p at position i: ordered choice, greedy repetition, predicates. */
  function Eval(p: Patt, x: Subject, i: int): (r: Res)
    requires 0 <= i <= |x.s|
    ensures r.Ok? ==> i <= r.j <= |x.s|
    decreases p, 0, 0
  {
    match p
    case Str(s) => if i + |s| <= |x.s| && x.s[i..i + |s|] == s then Ok(i + |s|, []) else Fail
    case Num(n) =>
      if n >= 0 then if i + n <= |x.s| then Ok(i + n, []) else Fail
      else if i - n <= |x.s| then Fail else Ok(i, [])
    case Bool(b) => if b then Ok(i, []) else Fail
    case SetP(cs) => if i < |x.s| && x.s[i] in cs then Ok(i + 1, []) else Fail
    case Seq(a, b) =>
      (match Eval(a, x, i)
       case Ok(j, cs) => Prepend(cs, Eval(b, x, j))
       case r => r)
    case Alt(a, b) =>
      (match Eval(a, x, i)
       case Fail => Eval(b, x, i)
       case r => r)
    case Diff(a, b) =>
      (match Eval(b, x, i)
       case Fail => Eval(a, x, i)
       case Ok(_, _) => Fail
       case Diverge => Diverge)
    case Neg(a) =>
      (match Eval(a, x, i)
       case Fail => Ok(i, [])
       case Ok(_, _) => Fail
       case Diverge => Diverge)
    case AndP(a) =>
      (match Eval(a, x, i)
       case Ok(_, _) => Ok(i, [])
       case r => r)
    case Rept(a, n) =>
      if n < 0 then EvalAtMost(a, -n, x, i)
      else
        (match EvalTimes(a, n, x, i)
         case Ok(j, cs) => Prepend(cs, EvalLoop(a, x, j))
         case r => r)
    case Capt(kind, idx, a) =>
      (match Eval(a, x, i)
       case Ok(j, cs) => Ok(j, Wrap(kind, idx, i, j, cs))
       case r => r)
    case Mark(_, kind, idx) => Ok(i, [Capture(i, idx, kind, 1)])
    case NonTerm(key) => Referred(x, key, i)
  }

  /** Exactly n matches of p, one after the other. */
  function EvalTimes(p: Patt, n: nat, x: Subject, i: int): (r: Res)
    requires 0 <= i <= |x.s|
    ensures r.Ok? ==> i <= r.j <= |x.s|
    decreases p, 1, n
  {
    if n == 0 then Ok(i, [])
    else
      match Eval(p, x, i)
      case Ok(j, cs) => Prepend(cs, EvalTimes(p, n - 1, x, j))
      case r => r
  }

  /** As many matches of p as possible. */
  function EvalLoop(p: Patt, x: Subject, i: int): (r: Res)
    requires 0 <= i <= |x.s|
    ensures r.Ok? ==> i <= r.j <= |x.s|
    decreases p, 1, |x.s| - i
  {
    match Eval(p, x, i)
    case Fail => Ok(i, [])
    case Ok(j, cs) => if j == i then Diverge else Prepend(cs, EvalLoop(p, x, j))
    case Diverge => Diverge
  }

  /** As many matches of p as possible, but no more than n. */
  function EvalAtMost(p: Patt, n: nat, x: Subject, i: int): (r: Res)
    requires 0 <= i <= |x.s|
    ensures r.Ok? ==> i <= r.j <= |x.s|
    decreases p, 1, n
  {
    if n == 0 then Ok(i, [])
    else
      match Eval(p, x, i)
      case Fail => Ok(i, [])
      case Ok(j, cs) => Prepend(cs, EvalAtMost(p, n - 1, x, j))
      case Diverge => Diverge
  }
}
