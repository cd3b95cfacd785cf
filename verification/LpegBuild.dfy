/** The functions that build a pattern's code from the code of its operands. */
module LpegBuild {
  import opened LpegCode
  import opened LpegPeg

  /** A compiled pattern, or the error that the builder raises. */
  datatype Built = Pattern(code: Code) | PatternTooBig | EmptyLoop | TooManyPending | BadCode

  /** newpatt, with the words that the caller then writes. */
  function NewPatt(c: Code): Built {
    if |c| >= MAX_PATT_SIZE - 1 then PatternTooBig else Pattern(c)
  }

  // ---- information about code ----

  predicate IsFailCode(c: Code) { At(c, 0).IFail? }

  /** isany: one IAny and nothing else, whatever its offset. */
  predicate IsAnyCode(c: Code) {
    |c| == 1 && c[0].ICheck? && c[0].ck.Any?
  }

  datatype Tag = NoInfo | IsCharset(cs: Charset) | ValidStarts(cs: Charset)

  /** tocharset */
  function ToCharset(c: Code): Tag {
    var i := At(c, 0);
    if IsFixCheck(i) then
      if At(c, Size(i)).IEnd? && CheckStep(i.ck) == 1 then IsCharset(StartSet(i.ck))
      else ValidStarts(StartSet(i.ck))
    else NoInfo
  }

  predicate Exclusive(t1: Tag, t2: Tag) {
    !t1.NoInfo? && !t2.NoInfo? && t1.cs !! t2.cs
  }

  /** All instructions from word i on have the property ISNOFAIL. */
  predicate NoFailFrom(c: Code, i: nat)
    decreases |c| - i
  {
    i < |c| ==> IsNoFail(c[i]) && NoFailFrom(c, i + Size(c[i]))
  }

  predicate IsHeadFail(c: Code) {
    IsFixCheck(At(c, 0)) && NoFailFrom(c, Size(At(c, 0)))
  }

  /** skipchecks: how many words of checks fit in a correction of `budget` bytes, and their bytes. */
  function SkipChecks(c: Code, i: nat, budget: int): (r: (nat, nat))
    ensures r.0 > 0 ==> i + r.0 <= |c|
    decreases |c| - i
  {
    if i < |c| && IsFixCheck(c[i]) && CheckStep(c[i].ck) <= budget && i + Size(c[i]) <= |c| then
      var rest := SkipChecks(c, i + Size(c[i]), budget - CheckStep(c[i].ck));
      (Size(c[i]) + rest.0, CheckStep(c[i].ck) + rest.1)
    else (0, 0)
  }

  // ---- peephole passes ----

  /** The first capture of the group that ends at word i and lies above the limit. */
  function GroupStart(c: Code, i: nat, limit: int): (r: nat)
    ensures r <= i
  {
    if i > limit && i > 0 && IsMovableCap(At(c, i - 1)) then GroupStart(c, i - 1, limit) else i
  }

  /** The largest correction among the captures in words start .. i. */
  function MaxOff(c: Code, start: nat, i: nat): (r: nat)
    decreases i - start
  {
    var off := if At(c, start).ICapture? then At(c, start).off else 0;
    if start >= i then off
    else var rest := MaxOff(c, start + 1, i); if off > rest then off else rest
  }

  /** The captures of a group that moves across checks of n bytes. */
  function Lift(g: Code, n: nat): (r: Code)
    ensures |r| == |g|
  {
    if g == [] then []
    else [if g[0].ICapture? then g[0].(off := g[0].off + n) else g[0]] + Lift(g[1..], n)
  }

  /** Moves the captures in words start .. i behind the checks in words i + 1 .. end. */
  function MoveUp(c: Code, start: nat, i: nat, end: nat, n: nat): (r: Code)
    requires start <= i <= end < |c|
    ensures |r| == |c|
  {
    c[..start] + c[i + 1..end + 1] + Lift(c[start..i + 1], n) + c[end + 1..]
  }

  /** optimizecaptures from word i on, with jump targets below `limit` left alone. */
  function OptCapsFrom(c: Code, i: nat, limit: int): (r: Code)
    ensures |r| == |c|
    decreases |c| - i
  {
    if i >= |c| then c
    else if IsJmp(c[i]) && i + c[i].offset >= limit then
      OptCapsFrom(c, i + Size(c[i]), i + c[i].offset + 1)
    else if i >= limit && IsMovableCap(c[i]) && IsFixCheck(At(c, i + 1)) then
      var start := GroupStart(c, i, limit);
      var (lc, n) := SkipChecks(c, i + 1, MAX_OFF - MaxOff(c, start, i));
      if n == 0 || lc == 0 then OptCapsFrom(c, i + 1, limit)
      else OptCapsFrom(MoveUp(c, start, i, i + lc, n), i + lc + 1, limit)
    else OptCapsFrom(c, i + Size(c[i]), limit)
  }

  function OptCaps(c: Code): Code {
    OptCapsFrom(c, 0, 0)
  }

  /** target, which follows at most `fuel` unconditional jumps. */
  function Target(c: Code, i: int, fuel: nat): int
    decreases fuel
  {
    if fuel == 0 || !At(c, i).IJmp? then i else Target(c, i + At(c, i).offset, fuel - 1)
  }

  /** optimizejumps */
  function OptJumps(c: Code): (r: Code)
    ensures |r| == |c|
  {
    seq(|c|, i requires 0 <= i < |c| =>
      if IsJmp(c[i]) then SetOffset(c[i], Target(c, i + c[i].offset, |c|) - i) else c[i])
  }

  /** optimizechoice on the choice at word 0. */
  function OptChoice(c: Code): (r: Code)
    requires c != [] && c[0].IChoice?
  {
    var i := At(c, 1);
    if IsFixCheck(i) && 1 + Size(i) <= |c| then
      [SetOffset(i, c[0].offset)] + c[2..1 + Size(i)]
      + [IChoice(c[0].offset - Size(i), CheckStep(i.ck))] + c[1 + Size(i)..]
    else c
  }

  // ---- the verifier, before a grammar is fixed ----

  datatype VRes = Accepts | Consumes | TooDeep | VStuck

  /** A saved entry of the verifier; `isCall` is a NULL `s`. */
  datatype VEntry = VEntry(isCall: bool, p: int)

  /**
    verify from word p to the end of c: Accepts is result 0, Consumes is result 1.  Control
    moves forward or to a saved target further on; VStuck is an assertion that fails, or code
    in which control would not move forward.
   */
  function VRun(c: Code, p: nat, back: seq<VEntry>): VRes
    decreases |c| - p, 1, 0
  {
    if p >= |c| then if p == |c| && back == [] then Accepts else VStuck
    else
      match c[p]
      case IRet => if back != [] then VGo(c, p, back[|back| - 1].p, back[..|back| - 1]) else VStuck
      case IChoice(offset, _) =>
        if |back| >= MAX_BACK_VER then TooDeep
        else VGo(c, p, p + 1, back + [VEntry(false, p + offset)])
      case ICall(offset) =>
        if At(c, p + 1).IRet? then VStuck
        else if |back| >= MAX_BACK_VER then TooDeep
        else VGo(c, p, p + offset, back + [VEntry(true, p + 1)])
      case IOpenCall(_) => VFail(c, p, back)
      case IBackCommit(offset) =>
        if back != [] && offset > 0 then VGo(c, p, p + offset, back[..|back| - 1]) else VStuck
      case ICommit(offset) =>
        if back != [] && offset > 0 then VGo(c, p, p + offset, back[..|back| - 1]) else VStuck
      case IPartialCommit(offset) =>
        if back != [] && offset > 0 then VGo(c, p, p + offset, back) else VStuck
      case IBack(n) =>
        if n == 1 && IsFixCheck(At(c, p + 1)) then VGo(c, p, p + 1 + Size(At(c, p + 1)), back)
        else if At(c, p - 1).IChoice? && back != [] && At(c, p + At(c, p - 1).offset - 1).IFail? then
          VGo(c, p, p + At(c, p - 1).offset, back[..|back| - 1])
        else VStuck
      case ICheck(ck, offset) =>
        if At(c, p + CheckSize(ck)).IBack? then VGo(c, p, p + CheckSize(ck) + 1, back)
        else if offset == 0 then VFail(c, p, back)
        else VGo(c, p, p + offset, back)
      case IJmp(offset) => VGo(c, p, p + offset, back)
      case IFailTwice => VFail(c, p, back)
      case IFail =>
        if p > 0 && c[p - 1].IBackCommit? then VGo(c, p, p + 1, back) else VFail(c, p, back)
      case ISpan(_) => VGo(c, p, p + CHARSET_INST_SIZE, back)
      case ICapture(_, _, _, _) => VGo(c, p, p + 1, back)
      case IEnd => VStuck
      case CharsetWord => VStuck
  }

  function VGo(c: Code, p: nat, q: int, back: seq<VEntry>): VRes
    decreases |c| - p, 0, 0
  {
    if p < q <= |c| then VRun(c, q, back) else VStuck
  }

  /** Label `fail` of verify: resumes the latest pending choice. */
  function VFail(c: Code, p: nat, back: seq<VEntry>): VRes
    decreases |c| - p, 0, 1 + |back|
  {
    if back == [] then Consumes
    else
      var b := back[|back| - 1];
      if b.isCall then VFail(c, p, back[..|back| - 1]) else VGo(c, p, b.p, back[..|back| - 1])
  }

  // ---- the pattern operators ----

  /** any */
  function AnyCode(n: nat): Code {
    if n > UCHAR_MAX then [ICheck(Any(UCHAR_MAX), 0)] + AnyCode(n - UCHAR_MAX) else [ICheck(Any(n), 0)]
  }

  function StrCode(s: seq<Byte>): (r: Code)
    ensures |r| == |s|
  {
    if s == [] then [] else [ICheck(Char(s[0]), 0)] + StrCode(s[1..])
  }

  /** getpatt on a number */
  function NumCode(n: int): Built {
    if n == 0 then Pattern([])
    else if n > 0 then NewPatt(AnyCode(n))
    else if -n <= UCHAR_MAX then Pattern([ICheck(Any(-n), 2), IFail])
    else
      var rest := AnyCode(-n - UCHAR_MAX);
      var offset := 2 + |rest|;
      NewPatt([ICheck(Any(UCHAR_MAX), offset + 1), IChoice(offset, UCHAR_MAX)] + rest + [IFailTwice])
  }

  /** concat_l */
  function Concat(c1: Code, c2: Code): Built {
    if IsFailCode(c1) || c2 == [] then Pattern(c1)
    else if IsFailCode(c2) || c1 == [] then Pattern(c2)
    else if IsAnyCode(c1) && IsAnyCode(c2) then NewPatt(AnyCode(c1[0].ck.n + c2[0].ck.n))
    else if NewPatt(c1 + c2).Pattern? then Pattern(OptCaps(c1 + c2))
    else PatternTooBig
  }

  /** A copy of c whose first check became a test with the given offset. */
  function AsTest(c: Code, offset: int): (r: Code)
    requires c != [] && c[0].ICheck?
    ensures |r| == |c|
  {
    [SetOffset(c[0], offset)] + c[1..]
  }

  /** diff_l */
  function DiffCode(c1: Code, c2: Code): Built {
    var t1, t2 := ToCharset(c1), ToCharset(c2);
    if t1.IsCharset? && t2.IsCharset? then Pattern(Words(ICheck(Set(t1.cs - t2.cs), 0)))
    else if IsHeadFail(c2) then NewPatt(AsTest(c2, |c2| + 1) + [IFail] + c1)
    else NewPatt(OptChoice([IChoice(1 + |c2| + 1, 0)] + c2 + [IFailTwice] + c1))
  }

  /** unm_l */
  function NegCode(c: Code): Built {
    if IsFailCode(c) then Pattern([])
    else if c == [] then Pattern([IFail])
    else DiffCode([], c)
  }

  /** pattand_l */
  function AndCode(c: Code): Built {
    if IsFailCode(c) || c == [] then Pattern(c)
    else if ToCharset(c).IsCharset? then NewPatt(c + [IBack(1)])
    else NewPatt([IChoice(1 + |c| + 1, 0)] + c + [IBackCommit(2), IFail])
  }

  /** firstpart: the size of the first alternative of an optimised union, or 0. */
  function FirstPart(c: Code): (sp: nat)
    ensures sp <= |c|
    ensures sp > 0 ==> c[0].ICheck? || c[0].IChoice?
    ensures sp > 0 ==> (c[sp - 1].IJmp? || c[sp - 1].ICommit?)
  {
    if IsTest(At(c, 0)) then
      var e := c[0].offset - 1;
      if 0 <= e < |c| && (c[e].IJmp? || c[e].ICommit?) && e + c[e].offset == |c| then e + 1 else 0
    else if At(c, 0).IChoice? then
      var e := c[0].offset - 1;
      if 0 <= e < |c| && c[e].ICommit? && e + c[e].offset == |c| then e + 1 else 0
    else 0
  }

  /** interfere, for a first part that starts with the test i. */
  predicate Interfere(i: Cell, t2: Tag)
    requires i.ICheck?
  {
    t2.NoInfo?
    || match i.ck
       case Char(c) => c in t2.cs
       case Set(cs) => !(t2.cs !! cs)
       case Any(_) => true
  }

  /** basicUnion */
  function BasicUnion(c1: Code, c2: Code): Code {
    var t1, t2 := ToCharset(c1), ToCharset(c2);
    if t1.IsCharset? && t2.IsCharset? then Words(ICheck(Set(t1.cs + t2.cs), 0))
    else if Exclusive(t1, t2) || IsHeadFail(c1) then AsTest(c1, |c1| + 1) + [IJmp(|c2| + 1)] + c2
    else OptChoice([IChoice(1 + |c1| + 1, 0)] + c1 + [ICommit(1 + |c2|)] + c2)
  }

  /** separateparts: splits an optimised union and puts c2 behind its last alternative. */
  function SeparateParts(c1: Code, c2: Code): Code
    decreases |c1|
  {
    var sp := FirstPart(c1);
    if sp == 0 then BasicUnion(c1, c2)
    else
      var rest := SeparateParts(c1[sp..], c2);
      if c1[sp - 1].ICommit? || (c1[0].ICheck? && !Interfere(c1[0], ToCharset(c2))) then
        c1[..sp - 1] + [SetOffset(c1[sp - 1], 1 + |rest|)] + rest
      else if c1[0].ICheck? && CheckSize(c1[0].ck) <= sp - 1 then
        var sz := CheckSize(c1[0].ck);
        [SetOffset(c1[0], c1[0].offset + 1)] + c1[1..sz] + [IChoice(sp - sz + 1, 1)]
        + c1[sz..sp - 1] + [ICommit(1 + |rest|)] + rest
      else []
  }

  /** union_l */
  function UnionCode(c1: Code, c2: Code): Built {
    if IsFailCode(c1) then Pattern(c2)
    else if IsFailCode(c2) || c1 == [] then Pattern(c1)
    else NewPatt(SeparateParts(c1, c2))
  }

  /** n copies of c */
  function Times(c: Code, n: nat): (r: Code)
    ensures |r| == n * |c|
  {
    if n == 0 then [] else c + Times(c, n - 1)
  }

  /** optionalheadfail: n copies whose tests all jump to the end. */
  function OptionalHead(c: Code, n: nat): Code
    requires c != [] && c[0].ICheck?
  {
    if n == 0 then [] else AsTest(c, n * |c|) + OptionalHead(c, n - 1)
  }

  /** n copies, each followed by a partial commit to the next word. */
  function PartialCopies(c: Code, n: nat): Code {
    if n == 0 then [] else c + [IPartialCommit(1)] + PartialCopies(c, n - 1)
  }

  /** optionals */
  function Optionals(c: Code, n: nat): Code
    requires n >= 1
  {
    OptChoice([IChoice(1 + n * (|c| + 1), 0)] + PartialCopies(c, n - 1) + c + [ICommit(1)])
  }

  /** star_l with a non-negative exponent */
  function StarCode(c: Code, n: nat): Built {
    var t := ToCharset(c);
    if t.IsCharset? then NewPatt(Times(c, n) + Words(ISpan(t.cs)))
    else if IsHeadFail(c) then
      var r := Times(c, n) + AsTest(c, |c| + 1) + [IJmp(-|c|)];
      if NewPatt(r).Pattern? then Pattern(OptJumps(OptCaps(r))) else PatternTooBig
    else
      var r := Times(c, n) + [IChoice(1 + |c| + 1, 0)] + c + [IPartialCommit(-|c|)];
      if !NewPatt(r).Pattern? then PatternTooBig
      else
        match VRun(c, 0, [])
        case Accepts => EmptyLoop
        case Consumes => Pattern(OptJumps(OptCaps(r)))
        case TooDeep => TooManyPending
        case VStuck => BadCode
  }

  /** star_l with the exponent -n */
  function AtMostCode(c: Code, n: nat): Built
    requires n >= 1
  {
    if IsHeadFail(c) then NewPatt(OptionalHead(c, n)) else NewPatt(Optionals(c, n))
  }

  /** capture_aux */
  function CaptureCode(kind: Kind, idx: int, c: Code): Built {
    var (lc, n) := SkipChecks(c, 0, MAX_OFF);
    if lc == |c| then NewPatt(c + [ICapture(FullCap, idx, kind, n)])
    else
      var r := [ICapture(OpenCap, idx, kind, 0)] + c + [ICapture(CloseCap, 0, Cclose, 0)];
      if NewPatt(r).Pattern? then Pattern(OptCaps(r)) else PatternTooBig
  }

  /** The code of a pattern, or the first error. */
  function Compile(p: Patt): Built {
    match p
    case Str(s) => NewPatt(StrCode(s))
    case Num(k) => NumCode(k)
    case Bool(truth) => Pattern(if truth then [] else [IFail])
    case SetP(cs) => Pattern(Words(ICheck(Set(cs), 0)))
    case Seq(a, b) => Then2(Compile(a), Compile(b), (c1, c2) => Concat(c1, c2))
    case Alt(a, b) => Then2(Compile(a), Compile(b), (c1, c2) => UnionCode(c1, c2))
    case Diff(a, b) => Then2(Compile(a), Compile(b), (c1, c2) => DiffCode(c1, c2))
    case Neg(a) => Then1(Compile(a), c => NegCode(c))
    case AndP(a) => Then1(Compile(a), c => AndCode(c))
    case Rept(a, n) => Then1(Compile(a), c => if n >= 0 then StarCode(c, n) else AtMostCode(c, -n))
    case Capt(kind, idx, a) => Then1(Compile(a), c => CaptureCode(kind, idx, c))
    case Mark(fromTable, kind, idx) => Pattern([ICapture(if fromTable then EmptyCapIdx else EmptyCap, idx, kind, 0)])
    case NonTerm(key) => Pattern([IOpenCall(key)])
  }

  function Then1(r: Built, f: Code -> Built): Built {
    if r.Pattern? then f(r.code) else r
  }

  function Then2(r1: Built, r2: Built, f: (Code, Code) -> Built): Built {
    if !r1.Pattern? then r1 else if !r2.Pattern? then r2 else f(r1.code, r2.code)
  }
}
