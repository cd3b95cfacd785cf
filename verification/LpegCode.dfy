/** The instruction set of LPeg's parsing machine and the word layout of a compiled pattern. */
module LpegCode {
  import ByteType

  type Byte = ByteType.Byte

  type Charset = set<Byte>

  const ALL_BYTES: Charset := set b: Byte | true

  /** Words of an instruction that carries a charset of 32 bytes, with words of 8 bytes. */
  const CHARSET_INST_SIZE := 5
  /** MAXOFF: the largest position correction a capture instruction can hold. */
  const MAX_OFF := 15
  const UCHAR_MAX := 255
  /** MAXPATTSIZE: SHRT_MAX - 10. */
  const MAX_PATT_SIZE := 32757
  /** MAXBACKVER */
  const MAX_BACK_VER := 200

  /** The operand of the three fixed checks IAny, IChar and ISet. */
  datatype Check = Any(n: nat) | Char(c: Byte) | Set(cs: Charset)

  datatype Kind =
    | Cclose | Cposition | Cconst | Cbackref | Carg | Csimple | Ctable | Cfunction
    | Cquery | Cstring | Csubst | Cfold | Cruntime | Cgroup

  /** IFullCapture, IEmptyCapture, IEmptyCaptureIdx, IOpenCapture and ICloseCapture. */
  datatype CapOp = FullCap | EmptyCap | EmptyCapIdx | OpenCap | CloseCap

  /**
    One word of code.  A check with offset 0 fails when it does not match; with another
    offset it is a test, which jumps instead.  The words after the first one of an ISet
    or ISpan are CharsetWord.  `off` of a capture is how many bytes before the current
    position the capture lies.
   */
  datatype Cell =
    | ICheck(ck: Check, offset: int)
    | ISpan(cs: Charset)
    | IBack(n: nat)
    | IRet
    | IEnd
    | IChoice(offset: int, aux: nat)
    | IJmp(offset: int)
    | ICall(offset: int)
    | IOpenCall(key: int)
    | ICommit(offset: int)
    | IPartialCommit(offset: int)
    | IBackCommit(offset: int)
    | IFailTwice
    | IFail
    | ICapture(op: CapOp, idx: int, kind: Kind, off: nat)
    | CharsetWord

  /** The words of a pattern without its final IEnd. */
  type Code = seq<Cell>

  /** The instruction at word i; the word after the last one is IEnd. */
  function At(c: Code, i: int): Cell {
    if 0 <= i < |c| then c[i] else if i == |c| then IEnd else CharsetWord
  }

  function CheckSize(ck: Check): (n: nat)
    ensures n >= 1
  {
    if ck.Set? then CHARSET_INST_SIZE else 1
  }

  /** sizei */
  function Size(i: Cell): (n: nat)
    ensures n >= 1
  {
    match i
    case ICheck(ck, _) => CheckSize(ck)
    case ISpan(_) => CHARSET_INST_SIZE
    case _ => 1
  }

  function Pads(n: nat): (r: Code)
    ensures |r| == n
  {
    seq(n, _ => CharsetWord)
  }

  /** An instruction together with its charset words. */
  function Words(i: Cell): (r: Code)
    ensures |r| == Size(i) && r[0] == i
  {
    [i] + Pads(Size(i) - 1)
  }

  /** op_step */
  function CheckStep(ck: Check): nat {
    if ck.Any? then ck.n else 1
  }

  /** The bytes on which a check can pass; fillcharset. */
  function StartSet(ck: Check): Charset {
    match ck
    case Set(cs) => cs
    case Char(c) => {c}
    case Any(_) => ALL_BYTES
  }

  /** Does the check match at position s of the subject? */
  predicate Passes(ck: Check, x: seq<Byte>, s: int) {
    match ck
    case Any(n) => n <= |x| - s
    case Char(c) => 0 <= s < |x| && x[s] == c
    case Set(cs) => 0 <= s < |x| && x[s] in cs
  }

  /** isfixcheck, which for these opcodes is also ischeck. */
  predicate IsFixCheck(i: Cell) {
    i.ICheck? && i.offset == 0
  }

  predicate IsTest(i: Cell) {
    i.ICheck? && i.offset != 0
  }

  /** Has the opcode the property ISJMP? */
  predicate HasOffset(i: Cell) {
    i.ICheck? || i.IChoice? || i.IJmp? || i.ICall? || i.ICommit? || i.IPartialCommit? || i.IBackCommit?
  }

  predicate IsJmp(i: Cell) {
    HasOffset(i) && i.offset != 0
  }

  function SetOffset(i: Cell, d: int): (r: Cell)
    requires HasOffset(i)
    ensures HasOffset(r) && r.offset == d && Size(r) == Size(i)
  {
    i.(offset := d)
  }

  predicate IsNoFail(i: Cell) {
    i.ISpan? || i.IJmp? || i.ICapture?
  }

  /** ismovablecap */
  predicate IsMovableCap(i: Cell) {
    i.ICapture? && !i.op.FullCap? && i.off < MAX_OFF
  }
}
