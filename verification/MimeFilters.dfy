/**
  The MIME codecs as incremental functions over carried bytes, as LTN12 filters, and as
  chains whose output is their input again.
 */
module MimeFilters {
  import opened ByteType
  import opened LtnFilters
  import opened LtnChain
  import Qp = MimeQp
  import B64 = MimeBase64

  // ---- the incremental functions ----

  /** Output, with nil in place of an empty one. */
  function OrNil(o: Piece): Chunk {
    if o == [] || o[0] == 0 then None else Some(o)
  }

  /** qp: the output, and the bytes to carry over; nil as carry is the end. */
  function QpLow(carry: Chunk, chunk: Chunk, marker: Piece): (Chunk, Chunk) {
    if carry.None? then (None, None)
    else
      var (o, p) := Qp.EncodeRun([], carry.value, marker);
      if chunk.None? then (OrNil(o + Qp.Pad(p)), None)
      else var (o2, p2) := Qp.EncodeRun(p, chunk.value, marker); (Some(o + o2), Some(p2))
  }

  function UnqpLow(carry: Chunk, chunk: Chunk): (Chunk, Chunk) {
    if carry.None? then (None, None)
    else
      var (o, p) := Qp.DecodeRun([], carry.value);
      if chunk.None? then (OrNil(o), None)
      else var (o2, p2) := Qp.DecodeRun(p, chunk.value); (Some(o + o2), Some(p2))
  }

  function QpwrpLow(left: int, chunk: Chunk, length: int): (Chunk, int) {
    if chunk.None? then (if left < length then Some(Qp.EQCRLF) else None, length)
    else var (o, l) := Qp.WrapRun(left, chunk.value, length); (Some(o), l)
  }

  function B64Low(carry: Chunk, chunk: Chunk): (Chunk, Chunk) {
    if carry.None? then (None, None)
    else
      var (o, p) := B64.EncodeRun([], carry.value);
      if chunk.None? then (if o + B64.Pad(p) == [] then None else Some(o + B64.Pad(p)), None)
      else var (o2, p2) := B64.EncodeRun(p, chunk.value); (Some(o + o2), Some(p2))
  }

  function Unb64Low(carry: Chunk, chunk: Chunk): (Chunk, Chunk) {
    if carry.None? then (None, None)
    else
      var (o, p) := B64.DecodeRun([], carry.value);
      if chunk.None? then (if o == [] then None else Some(o), None)
      else var (o2, p2) := B64.DecodeRun(p, chunk.value); (Some(o + o2), Some(p2))
  }

  function WrpLow(left: int, chunk: Chunk, length: int): (Chunk, int) {
    if chunk.None? then (if left < length then Some(B64.CRLF) else None, length)
    else var (o, l) := B64.WrapRun(left, chunk.value, length); (Some(o), l)
  }

  // ---- the loops ----

  /** qpencode, with its carry of three bytes */
  method QpEncodeByte(c: Byte, input: array<Byte>, size0: nat, marker: Piece) returns (size: nat, out: Piece)
    requires input.Length == 3 && size0 <= 2 && Qp.Stuck(input[..size0])
    modifies input
    ensures size <= 2 && (out, input[..size]) == Qp.Settle(old(input[..size0]) + [c], marker) && Qp.Stuck(input[..size])
  {
    hide Qp.Quote, Qp.ClassOf, Qp.Tokens, Qp.WrittenAll;
    input[size0] := c;
    size, out := size0 + 1, [];
    ghost var q := input[..size];
    assert q == old(input[..size0]) + [c];
    assert size0 > 0 ==> input[0] == old(input[..size0])[0];
    assert [] + Qp.Settle(q, marker).0 == Qp.Settle(q, marker).0;
    while size > 0
      invariant size <= 3 && (size == 3 ==> Qp.ClassOf(input[0]) == Qp.IfLast)
      invariant Qp.Settle(q, marker) == (out + Qp.Settle(input[..size], marker).0, Qp.Settle(input[..size], marker).1)
      decreases size
    {
      ghost var p := input[..size];
      ghost var before := out;
      Qp.SettleTokens(p, [], marker);
      assert out + [] == out;
      match Qp.ClassOf(input[0]) {
        case Cr =>
          if size < 2 { return; }
          if input[1] == Qp.LF { return 0, out + marker; }
          out := out + Qp.Quote(input[0]);
        case IfLast =>
          if size < 3 { return; }
          if input[1] == Qp.CR && input[2] == Qp.LF {
            Qp.Assoc(out, Qp.Quote(input[0]), marker);
            return 0, out + Qp.Quote(input[0]) + marker;
          }
          out := out + [input[0]];
        case Quoted =>
          out := out + Qp.Quote(input[0]);
        case Plain =>
          out := out + [input[0]];
      }
      input[0], input[1] := input[1], input[2];
      size := size - 1;
      assert input[..size] == p[1..];
      Qp.Assoc(before, out[|before|..], Qp.Settle(p[1..], marker).0);
    }
    assert out + [] == out;
  }

  /** The loop over one argument of qp. */
  method QpEncodeBytes(x: Piece, input: array<Byte>, size0: nat, marker: Piece) returns (size: nat, out: Piece)
    requires input.Length == 3 && size0 <= 2 && Qp.Stuck(input[..size0])
    modifies input
    ensures size <= 2 && (out, input[..size]) == Qp.EncodeRun(old(input[..size0]), x, marker) && Qp.Stuck(input[..size])
  {
    size, out := size0, [];
    ghost var p := input[..size0];
    var i := 0;
    while i < |x|
      invariant 0 <= i <= |x| && size <= 2 && Qp.Stuck(input[..size])
      invariant (out, input[..size]) == Qp.EncodeRun(p, x[..i], marker)
    {
      Qp.EncodePieces(p, x[..i], [x[i]], marker);
      assert x[..i] + [x[i]] == x[..i + 1];
      OneMore(input[..size], x[i], marker);
      var o;
      size, o := QpEncodeByte(x[i], input, size, marker);
      out := out + o;
      i := i + 1;
    }
    assert x[..|x|] == x;
  }

  lemma OneMore(p: Piece, c: Byte, marker: Piece)
    ensures Qp.EncodeRun(p, [c], marker) == Qp.Settle(p + [c], marker)
  {
    var (o, p2) := Qp.Settle(p + [c], marker);
    assert Qp.EncodeRun(p2, [c][1..], marker) == ([], p2);
    assert o + [] == o;
  }

  /** mime.qp */
  method MimeQp(carry: Chunk, chunk: Chunk, marker: Piece) returns (a: Chunk, b: Chunk)
    ensures (a, b) == QpLow(carry, chunk, marker)
  {
    if carry.None? { return None, None; }
    var atom := new Byte[3];
    var size, out := QpEncodeBytes(carry.value, atom, 0, marker);
    assert atom[..0] == [];
    if chunk.None? {
      var i, pad := 0, [];
      ghost var p := atom[..size];
      assert p[0..] == p && pad + Qp.PadBytes(p) == Qp.PadBytes(p);
      while i < size
        invariant 0 <= i <= size && p == atom[..size] && pad + Qp.PadBytes(p[i..]) == Qp.PadBytes(p)
      {
        ghost var before := pad;
        assert p[i..][0] == p[i] && p[i] == atom[i];
        assert p[i..][1..] == p[i + 1..];
        pad := pad + if Qp.ClassOf(atom[i]) == Qp.Plain then [atom[i]] else Qp.Quote(atom[i]);
        Qp.Assoc(before, if Qp.ClassOf(atom[i]) == Qp.Plain then [atom[i]]
          else Qp.Quote(atom[i]), Qp.PadBytes(p[i + 1..]));
        i := i + 1;
      }
      assert p[size..] == [] && pad + [] == pad;
      if size > 0 { pad := pad + Qp.EQCRLF; }
      out := out + pad;
      return if out == [] || out[0] == 0 then None else Some(out), None;
    }
    var more;
    size, more := QpEncodeBytes(chunk.value, atom, size, marker);
    a, b := Some(out + more), Some(atom[..size]);
  }

  /** mime.qpwrp */
  method MimeQpwrp(left0: int, chunk: Chunk, length: int) returns (a: Chunk, left: int)
    ensures (a, left) == QpwrpLow(left0, chunk, length)
  {
    if chunk.None? {
      return if left0 < length then Some(Qp.EQCRLF) else None, length;
    }
    var x, out: Piece := chunk.value, [];
    left := left0;
    var i := 0;
    while i < |x|
      invariant 0 <= i <= |x| && (out, left) == Qp.WrapRun(left0, x[..i], length)
    {
      Qp.WrapPieces(left0, x[..i], [x[i]], length);
      Qp.WrapOne(left, x[i], length);
      assert x[..i] + [x[i]] == x[..i + 1];
      ghost var before := out;
      if x[i] == Qp.CR {
        assert out + [] == out;
      } else if x[i] == Qp.LF {
        left := length;
        out := out + Qp.CRLF;
      } else {
        if left <= (if x[i] == Qp.EQ then 3 else 1) {
          left := length;
          out := out + Qp.EQCRLF;
        }
        Qp.Assoc(before, out[|before|..], [x[i]]);
        out := out + [x[i]];
        left := left - 1;
      }
      i := i + 1;
    }
    assert x[..|x|] == x;
    a := Some(out);
  }

  /** qpdecode */
  method QpDecodeByte(c: Byte, input: array<Byte>, size0: nat) returns (size: nat, out: Piece)
    requires input.Length == 3 && size0 <= 2
    modifies input
    ensures size <= 3 && (out, input[..size]) == Qp.DecodeStep(old(input[..size0]) + [c])
  {
    input[size0] := c;
    size := size0 + 1;
    ghost var q := old(input[..size0]) + [c];
    assert input[..size] == q && input[..0] == [];
    assert forall i :: 0 <= i < size ==> input[i] == q[i];
    assert size >= 2 ==> q[..2] == input[..2];
    assert size >= 3 ==> q[..3] == input[..3];
    if input[0] == Qp.EQ {
      if size < 3 { return size, []; }
      if input[1] == Qp.CR && input[2] == Qp.LF { return 0, []; }
      var hi, lo := Qp.Undigit(input[1]), Qp.Undigit(input[2]);
      if hi > 15 || lo > 15 { return 0, input[..3]; }
      return 0, [(hi * 16 + lo) as Byte];
    } else if input[0] == Qp.CR {
      if size < 2 { return size, []; }
      return 0, if input[1] == Qp.LF then input[..2] else [];
    }
    return 0, if input[0] == Qp.TAB || 31 < input[0] < 127 then [input[0]] else [];
  }

  /** mime.wrp */
  method MimeWrp(left0: int, chunk: Chunk, length: int) returns (a: Chunk, left: int)
    ensures (a, left) == WrpLow(left0, chunk, length)
  {
    if chunk.None? {
      return if left0 < length then Some(B64.CRLF) else None, length;
    }
    var x, out: Piece := chunk.value, [];
    left := left0;
    var i := 0;
    while i < |x|
      invariant 0 <= i <= |x| && (out, left) == B64.WrapRun(left0, x[..i], length)
    {
      B64.WrapPieces(left0, x[..i], [x[i]], length);
      WrapOneByte(left, x[i], length);
      assert x[..i] + [x[i]] == x[..i + 1];
      ghost var before := out;
      if x[i] == B64.CR {
        assert out + [] == out;
      } else if x[i] == B64.LF {
        left := length;
        out := out + B64.CRLF;
      } else {
        if left <= 0 {
          left := length;
          out := out + B64.CRLF;
        }
        B64.Assoc(before, out[|before|..], [x[i]]);
        out := out + [x[i]];
        left := left - 1;
      }
      i := i + 1;
    }
    assert x[..|x|] == x;
    a := Some(out);
  }

  lemma WrapOneByte(left: int, c: Byte, length: int)
    ensures B64.WrapRun(left, [c], length) == B64.WrapStep(left, c, length)
  {
    var (o, l) := B64.WrapStep(left, c, length);
    assert B64.WrapRun(l, [c][1..], length) == ([], l);
    assert o + [] == o;
    assert B64.WrapRun(left, [c], length) == (o + [], l);
  }

  /** b64encode */
  method B64EncodeByte(c: Byte, input: array<Byte>, size0: nat) returns (size: nat, out: Piece)
    requires input.Length == 3 && size0 <= 2
    modifies input
    ensures size <= 2 && (out, input[..size]) == B64.EncodeStep(old(input[..size0]), c)
  {
    input[size0] := c;
    size, out := size0 + 1, [];
    assert input[..size] == old(input[..size0]) + [c];
    if size == 3 {
      var value := (input[0] as nat * 256 + input[1] as nat) * 256 + input[2] as nat;
      var code3 := B64.Letter(value % 64);
      value := value / 64;
      var code2 := B64.Letter(value % 64);
      value := value / 64;
      var code1 := B64.Letter(value % 64);
      value := value / 64;
      out, size := [B64.Letter(value), code1, code2, code3], 0;
    }
  }

  /** b64decode */
  method B64DecodeByte(c: Byte, input: array<Byte>, size0: nat) returns (size: nat, out: Piece)
    requires input.Length == 4 && size0 <= 3 && B64.Letters(input[..size0])
    modifies input
    ensures size <= 3 && (out, input[..size]) == B64.DecodeStep(old(input[..size0]), c) && B64.Letters(input[..size])
  {
    size, out := size0, [];
    if B64.Unletter(c) > 64 { return; }
    ghost var p := input[..size0];
    input[size] := c;
    size := size + 1;
    assert input[..size] == p + [c];
    assert forall i :: 0 <= i < size0 ==> B64.Unletter(p[i]) < 64;
    if size == 4 {
      var value := B64.Unletter(input[0]) * 64;
      value := (value + B64.Unletter(input[1])) * 64;
      value := (value + B64.Unletter(input[2])) * 64;
      value := value + B64.Unletter(input[3]);
      var decoded2 := (value % 256) as Byte;
      value := value / 256;
      var decoded1 := (value % 256) as Byte;
      value := value / 256;
      var valid := if input[2] == B64.EQ then 1 else if input[3] == B64.EQ then 2 else 3;
      out, size := [value as Byte, decoded1, decoded2][..valid], 0;
    }
  }

  // ---- as filters ----

  datatype Codec = QpEncoder | QpWrapper | QpDecoder | B64Encoder | Wrapper | B64Decoder

  /** A codec with what it carries between two calls: bytes, or the room left in the line. */
  datatype State = State(codec: Codec, bytes: Chunk, left: int)

  /** The parameters of a chain: the marker of qp, and the length of lines. */
  datatype Setup = Setup(marker: Piece, length: int)

  /** `filter.cycle` on the codec's incremental function */
  function Cycle(u: Setup): Step<State> {
    (s: State, c: Chunk) => CycleStep(u, s, c)
  }

  function CarryStep(s: State, r: (Chunk, Chunk)): (State, Chunk) {
    (s.(bytes := r.1), r.0)
  }

  function LeftStep(s: State, r: (Chunk, int)): (State, Chunk) {
    (s.(left := r.1), r.0)
  }

  function CycleStep(u: Setup, s: State, c: Chunk): (State, Chunk) {
    match s.codec
    case QpEncoder => CarryStep(s, QpLow(s.bytes, c, u.marker))
    case QpWrapper => LeftStep(s, QpwrpLow(s.left, c, u.length))
    case QpDecoder => CarryStep(s, UnqpLow(s.bytes, c))
    case B64Encoder => CarryStep(s, B64Low(s.bytes, c))
    case Wrapper => LeftStep(s, WrpLow(s.left, c, u.length))
    case B64Decoder => CarryStep(s, Unb64Low(s.bytes, c))
  }

  /** A state in which the codec has not ended, and carries only bytes that wait for more. */
  predicate Live(s: State) {
    match s.codec
    case QpEncoder => s.bytes.Some? && Qp.Stuck(s.bytes.value)
    case QpDecoder => s.bytes.Some? && Waiting(s.bytes.value)
    case B64Encoder => s.bytes.Some? && |s.bytes.value| < 3
    case B64Decoder => s.bytes.Some? && B64.Letters(s.bytes.value)
    case _ => true
  }

  /** A state in which nil may come. */
  predicate Closing(s: State) {
    Live(s) || s.bytes.None?
  }

  function Rank(u: Setup, s: State): nat {
    match s.codec
    case QpWrapper => if s.left < u.length then 1 else 0
    case Wrapper => if s.left < u.length then 1 else 0
    case _ => if s.bytes.Some? then 1 else 0
  }

  function LawOf(u: Setup): Law<State> {
    Law((s: State) => Live(s), (s: State) => Closing(s), (s: State) => Rank(u, s))
  }

  function Start(k: Codec, u: Setup): State {
    State(k, Some([]), u.length)
  }

  /** What the codec computes of its whole input. */
  function Computed(k: Codec, u: Setup, x: Piece): Piece {
    match k
    case QpEncoder => Qp.Encode(x, u.marker)
    case QpWrapper => Qp.Wrap(x, u.length)
    case QpDecoder => Qp.Decode(x)
    case B64Encoder => B64.Encode(x)
    case Wrapper => B64.Wrap(x, u.length)
    case B64Decoder => B64.Decode(x)
  }

  // ---- carried bytes ----

  /** Bytes that wait for more are read again without output. */
  lemma StuckAgain(p: Piece, marker: Piece)
    requires Qp.Stuck(p)
    ensures Qp.EncodeRun([], p, marker) == ([], p)
  {
    if |p| == 1 {
      OneMore([], p[0], marker);
      assert [] + [p[0]] == p && p == [p[0]];
    } else if |p| == 2 {
      OneMore([], p[0], marker);
      OneMore([p[0]], p[1], marker);
      assert [] + [p[0]] == [p[0]] && [p[0]] + [p[1]] == p && p == [p[0]] + [p[1]];
      Qp.EncodePieces([], [p[0]], [p[1]], marker);
    }
  }

  /** The decoder keeps at most two bytes, and reads them again without output. */
  predicate Waiting(p: Piece) {
    p == [] || (p[0] == Qp.EQ && |p| <= 2) || p == [Qp.CR]
  }

  lemma WaitingAgain(p: Piece)
    requires Waiting(p)
    ensures Qp.DecodeRun([], p) == ([], p)
  {
    if |p| == 1 {
      DecodeMore([], p[0]);
      assert [] + [p[0]] == p && p == [p[0]];
    } else if |p| == 2 {
      DecodeMore([], p[0]);
      DecodeMore([p[0]], p[1]);
      assert [] + [p[0]] == [p[0]] && [p[0]] + [p[1]] == p && p == [p[0]] + [p[1]];
      Qp.DecodePieces([], [p[0]], [p[1]]);
    }
  }

  lemma DecodeMore(p: Piece, c: Byte)
    ensures Qp.DecodeRun(p, [c]) == Qp.DecodeStep(p + [c])
  {
    var (o, p2) := Qp.DecodeStep(p + [c]);
    assert Qp.DecodeRun(p2, [c][1..]) == ([], p2);
    assert o + [] == o;
  }

  lemma {:induction false} DecodeWaits(p: Piece, x: Piece)
    requires Waiting(p)
    ensures Waiting(Qp.DecodeRun(p, x).1)
    decreases |x|
  {
    if x != [] { DecodeWaits(Qp.DecodeStep(p + [x[0]]).1, x[1..]); }
  }

  lemma ShortAgain(p: Piece)
    requires |p| < 3
    ensures B64.EncodeRun([], p) == ([], p)
  {
    if |p| == 1 {
      EncodeMore([], p[0]);
      assert p == [p[0]] && [] + [p[0]] == p;
    } else if |p| == 2 {
      EncodeMore([], p[0]);
      EncodeMore([p[0]], p[1]);
      B64.EncodePieces([], [p[0]], [p[1]]);
      assert [] + [p[0]] == [p[0]] && p == [p[0]] + [p[1]];
    }
  }

  lemma EncodeMore(p: Piece, c: Byte)
    ensures B64.EncodeRun(p, [c]) == B64.EncodeStep(p, c)
  {
    var (o, p2) := B64.EncodeStep(p, c);
    assert B64.EncodeRun(p2, [c][1..]) == ([], p2);
    assert o + [] == o;
  }

  lemma {:induction false} EncodeShort(p: Piece, x: Piece)
    requires |p| < 3
    ensures |B64.EncodeRun(p, x).1| < 3
    decreases |x|
  {
    if x != [] { EncodeShort(B64.EncodeStep(p, x[0]).1, x[1..]); }
  }

  lemma {:induction false} LettersAgain(p: Piece, x: Piece)
    requires B64.Letters(p + x)
    ensures B64.Letters(p) && B64.DecodeRun(p, x) == ([], p + x)
    decreases |x|
  {
    assert forall i :: 0 <= i < |p| ==> p[i] == (p + x)[i];
    if x == [] {
      assert p + x == p;
    } else {
      assert (p + x)[|p|] == x[0];
      var q := p + [x[0]];
      assert q + x[1..] == p + x;
      LettersAgain(q, x[1..]);
      assert B64.DecodeStep(p, x[0]) == ([], q);
      assert B64.DecodeRun(p, x).0 == [] + B64.DecodeRun(q, x[1..]).0;
    }
  }

  // ---- the filters keep the protocol ----

  lemma LowEncoder(u: Setup, s: State, c: Chunk)
    requires s.codec.QpEncoder? && Live(s)
    ensures CycleStep(u, s, c) ==
            if c.None? then (s.(bytes := None), OrNil(Qp.Pad(s.bytes.value)))
            else var (o, p) := Qp.EncodeRun(s.bytes.value, c.value, u.marker); (s.(bytes := Some(p)), Some(o))
    ensures c.Some? ==> Qp.Stuck(Qp.EncodeRun(s.bytes.value, c.value, u.marker).1)
    ensures OrNil(Qp.Pad(s.bytes.value)) == if Qp.Pad(s.bytes.value) == [] then None else Some(Qp.Pad(s.bytes.value))
  {
    StuckAgain(s.bytes.value, u.marker);
    assert [] + Qp.Pad(s.bytes.value) == Qp.Pad(s.bytes.value);
    if c.Some? {
      Qp.EncodeFrom(s.bytes.value, c.value, u.marker);
      var o := Qp.EncodeRun(s.bytes.value, c.value, u.marker).0;
      assert [] + o == o;
    }
    PadStarts(s.bytes.value);
  }

  lemma PadStarts(p: Piece)
    ensures Qp.Pad(p) == [] || Qp.Pad(p)[0] != 0
  {
    if p != [] {
      var first := if Qp.ClassOf(p[0]) == Qp.Plain then [p[0]] else Qp.Quote(p[0]);
      assert Qp.PadBytes(p) == first + Qp.PadBytes(p[1..]);
    }
  }

  lemma LowDecoder(u: Setup, s: State, c: Chunk)
    requires s.codec.QpDecoder? && Live(s)
    ensures CycleStep(u, s, c) ==
            if c.None? then (s.(bytes := None), None)
            else var (o, p) := Qp.DecodeRun(s.bytes.value, c.value); (s.(bytes := Some(p)), Some(o))
    ensures c.Some? ==> Waiting(Qp.DecodeRun(s.bytes.value, c.value).1)
  {
    WaitingAgain(s.bytes.value);
    if c.Some? {
      DecodeWaits(s.bytes.value, c.value);
      var o := Qp.DecodeRun(s.bytes.value, c.value).0;
      assert [] + o == o;
    }
  }

  lemma LowB64(u: Setup, s: State, c: Chunk)
    requires s.codec.B64Encoder? && Live(s)
    ensures CycleStep(u, s, c) ==
            if c.None? then
              (s.(bytes := None), if B64.Pad(s.bytes.value) == [] then None else Some(B64.Pad(s.bytes.value)))
            else var (o, p) := B64.EncodeRun(s.bytes.value, c.value); (s.(bytes := Some(p)), Some(o))
    ensures c.Some? ==> |B64.EncodeRun(s.bytes.value, c.value).1| < 3
  {
    ShortAgain(s.bytes.value);
    assert [] + B64.Pad(s.bytes.value) == B64.Pad(s.bytes.value);
    if c.Some? {
      EncodeShort(s.bytes.value, c.value);
      var o := B64.EncodeRun(s.bytes.value, c.value).0;
      assert [] + o == o;
    }
  }

  lemma LowUnb64(u: Setup, s: State, c: Chunk)
    requires s.codec.B64Decoder? && Live(s)
    ensures CycleStep(u, s, c) ==
            if c.None? then (s.(bytes := None), None)
            else var (o, p) := B64.DecodeRun(s.bytes.value, c.value); (s.(bytes := Some(p)), Some(o))
  {
    assert [] + s.bytes.value == s.bytes.value;
    LettersAgain([], s.bytes.value);
    if c.Some? {
      var o := B64.DecodeRun(s.bytes.value, c.value).0;
      assert [] + o == o;
    }
  }

  lemma CodecsObey(u: Setup)
    ensures Obeys(Cycle(u), LawOf(u))
  {
    forall s: State, c: Chunk ensures Proper(Cycle(u), LawOf(u), s, c) {
      if Live(s) { CodecProper(u, s, c); } else if c.None? && s.bytes.None? { Ended(u, s); }
    }
  }

  /** nil after the end is answered with nil. */
  lemma Ended(u: Setup, s: State)
    requires !Live(s) && s.bytes.None?
    ensures CycleStep(u, s, None) == (s, None)
  {
  }

  lemma CodecProper(u: Setup, s: State, c: Chunk)
    requires Live(s)
    ensures Proper(Cycle(u), LawOf(u), s, c)
  {
    hide Qp.Pad, B64.Pad, Qp.EncodeRun, Qp.DecodeRun, B64.EncodeRun, B64.DecodeRun, Qp.WrapRun, B64.WrapRun, CycleStep;
    match s.codec
    case QpEncoder =>
      LowEncoder(u, s, c);
      if c == Some([]) { NoInput(u, s); }
    case QpDecoder =>
      LowDecoder(u, s, c);
      if c == Some([]) { NoInput(u, s); }
    case B64Encoder =>
      LowB64(u, s, c);
      if c == Some([]) { NoInput(u, s); }
    case B64Decoder =>
      LowUnb64(u, s, c);
      if c == Some([]) { NoInput(u, s); }
    case _ =>
      WrapperStep(u, s, c);
      var (s2, o) := CycleStep(u, s, c);
      assert Live(s2);
      if c == Some([]) {
        NoInput(u, s);
        assert o == Some([]);
      }
      if c.None? && o.Some? {
        assert Rank(u, s2) < Rank(u, s);
      }
  }

  /** A request for more output puts out nothing. */
  lemma NoInput(u: Setup, s: State)
    ensures Qp.EncodeRun(if s.bytes.Some? then s.bytes.value else [], [], u.marker).0 == []
    ensures Qp.DecodeRun(if s.bytes.Some? then s.bytes.value else [], []).0 == []
    ensures B64.EncodeRun(if s.bytes.Some? then s.bytes.value else [], []).0 == []
    ensures s.codec.B64Decoder? && Live(s) ==> B64.DecodeRun(s.bytes.value, []).0 == []
    ensures Qp.WrapRun(s.left, [], u.length).0 == [] && B64.WrapRun(s.left, [], u.length).0 == []
  {
  }

  lemma WrapperStep(u: Setup, s: State, c: Chunk)
    requires s.codec.QpWrapper? || s.codec.Wrapper?
    ensures var (s2, o) := CycleStep(u, s, c);
            && s2.codec == s.codec && (c.Some? ==> o.Some?)
            && (c.None? && o.Some? ==> o.value != [] && s.left < u.length && s2.left == u.length)
            && (c.Some? ==> o.value == if s.codec.QpWrapper? then Qp.WrapRun(s.left, c.value, u.length).0
              else B64.WrapRun(s.left, c.value, u.length).0)
  {
    hide Qp.WrapRun, B64.WrapRun;
  }

  // ---- what the filters compute ----

  /** What a codec that has not ended puts out for x, and its next state. */
  function Run(u: Setup, s: State, x: Piece): (State, Piece)
    requires Live(s)
  {
    match s.codec
    case QpEncoder => var r := Qp.EncodeRun(s.bytes.value, x, u.marker); (s.(bytes := Some(r.1)), r.0)
    case QpWrapper => var r := Qp.WrapRun(s.left, x, u.length); (s.(left := r.1), r.0)
    case QpDecoder => var r := Qp.DecodeRun(s.bytes.value, x); (s.(bytes := Some(r.1)), r.0)
    case B64Encoder => var r := B64.EncodeRun(s.bytes.value, x); (s.(bytes := Some(r.1)), r.0)
    case Wrapper => var r := B64.WrapRun(s.left, x, u.length); (s.(left := r.1), r.0)
    case B64Decoder => var r := B64.DecodeRun(s.bytes.value, x); (s.(bytes := Some(r.1)), r.0)
  }

  lemma RunIs(u: Setup, s: State, x: Piece)
    requires Live(s)
    ensures var (s2, o) := Run(u, s, x); CycleStep(u, s, Some(x)) == (s2, Some(o)) && Live(s2)
  {
    hide Qp.EncodeRun, Qp.DecodeRun, B64.EncodeRun, B64.DecodeRun, Qp.WrapRun, B64.WrapRun, Qp.Pad, B64.Pad;
    match s.codec
    case QpEncoder => LowEncoder(u, s, Some(x));
    case QpDecoder => LowDecoder(u, s, Some(x));
    case B64Encoder => LowB64(u, s, Some(x));
    case B64Decoder => LowUnb64(u, s, Some(x));
    case _ =>
  }

  lemma RunNothing(u: Setup, s: State)
    requires Live(s)
    ensures Run(u, s, []) == (s, [])
  {
  }

  lemma RunPieces(u: Setup, s: State, x: Piece, y: Piece)
    requires Live(s)
    ensures var (s1, o1) := Run(u, s, x);
            Live(s1) && var (s2, o2) := Run(u, s1, y); Run(u, s, x + y) == (s2, o1 + o2)
  {
    RunIs(u, s, x);
    hide Qp.EncodeRun, Qp.DecodeRun, B64.EncodeRun, B64.DecodeRun, Qp.WrapRun, B64.WrapRun, CycleStep;
    match s.codec
    case QpEncoder => Qp.EncodePieces(s.bytes.value, x, y, u.marker);
    case QpWrapper => Qp.WrapPieces(s.left, x, y, u.length);
    case QpDecoder => Qp.DecodePieces(s.bytes.value, x, y);
    case B64Encoder => B64.EncodePieces(s.bytes.value, x, y);
    case Wrapper => B64.WrapPieces(s.left, x, y, u.length);
    case B64Decoder => B64.DecodePieces(s.bytes.value, x, y);
  }

  lemma GiveIs(u: Setup, s: State, c: Piece)
    requires Live(s) && Obeys(Cycle(u), LawOf(u))
    ensures var (s2, o) := Run(u, s, c);
            Live(s2) && Give(Cycle(u), LawOf(u), s, c) == (s2, if o == [] then [] else [o])
  {
    hide Run, CycleStep;
    var f, law := Cycle(u), LawOf(u);
    RunIs(u, s, c);
    var (s2, o) := Run(u, s, c);
    if o != [] {
      RunIs(u, s2, []);
      RunNothing(u, s2);
      assert Give(f, law, s2, []) == (s2, []);
      assert Give(f, law, s, c) == (s2, [o] + []);
      assert [o] + [] == [o];
    }
  }

  lemma {:induction false} FlattenJoin(cs: seq<Piece>, ds: seq<Piece>)
    ensures Flatten(cs + ds) == Flatten(cs) + Flatten(ds)
    decreases |cs|
  {
    if cs == [] {
      assert cs + ds == ds;
    } else {
      assert (cs + ds)[1..] == cs[1..] + ds;
      FlattenJoin(cs[1..], ds);
      Qp.Assoc(cs[0], Flatten(cs[1..]), Flatten(ds));
    }
  }

  lemma FlattenOne(o: Piece)
    ensures Flatten(if o == [] then [] else [o]) == o
  {
    if o != [] {
      assert [o][1..] == [] && Flatten([]) == [];
      assert o + [] == o;
    }
  }

  /** However the input is cut, the state and the concatenated output are those of the whole. */
  lemma {:induction false} GiveAllIs(u: Setup, s: State, cs: seq<Piece>)
    requires Live(s) && Obeys(Cycle(u), LawOf(u))
    ensures var (s2, o) := Run(u, s, Flatten(cs)); var r := GiveAll(Cycle(u), LawOf(u), s, cs);
            Live(s2) && r.0 == s2 && Flatten(r.1) == o
    decreases |cs|
  {
    hide Run;
    if cs == [] {
      RunNothing(u, s);
    } else {
      GiveIs(u, s, cs[0]);
      var (s1, o1) := Run(u, s, cs[0]);
      RunPieces(u, s, cs[0], Flatten(cs[1..]));
      GiveAllIs(u, s1, cs[1..]);
      FlattenOne(o1);
      FlattenJoin(if o1 == [] then [] else [o1], GiveAll(Cycle(u), LawOf(u), s1, cs[1..]).1);
    }
  }

  /** What a codec puts out at the end of its input. */
  function Rest(u: Setup, s: State): Piece
    requires Live(s)
  {
    match s.codec
    case QpEncoder => Qp.Pad(s.bytes.value)
    case QpWrapper => Qp.WrapEnd(s.left, u.length)
    case B64Encoder => B64.Pad(s.bytes.value)
    case Wrapper => B64.WrapEnd(s.left, u.length)
    case _ => []
  }

  lemma FinishIs(u: Setup, s: State)
    requires Live(s) && Obeys(Cycle(u), LawOf(u))
    ensures LawOf(u).closing(s) && Flatten(Finish(Cycle(u), LawOf(u), s)) == Rest(u, s)
  {
    hide Qp.Pad, B64.Pad;
    var f, law := Cycle(u), LawOf(u);
    match s.codec {
      case QpEncoder => LowEncoder(u, s, None);
      case QpDecoder => LowDecoder(u, s, None);
      case B64Encoder => LowB64(u, s, None);
      case B64Decoder => LowUnb64(u, s, None);
      case _ =>
    }
    var (s2, o) := f(s, None);
    assert o == if Rest(u, s) == [] then None else Some(Rest(u, s));
    if o.Some? {
      EndedOnce(u, s2, s);
      assert Finish(f, law, s2) == [];
      assert Finish(f, law, s) == [o.value] + [];
      assert [o.value] + [] == [o.value];
      FlattenOne(o.value);
    } else {
      assert Finish(f, law, s) == [];
    }
  }

  /** After its last output a codec answers nil with nil. */
  lemma EndedOnce(u: Setup, s2: State, s: State)
    requires Live(s) && s2 == CycleStep(u, s, None).0
    ensures CycleStep(u, s2, None).1 == None && Closing(s2)
  {
  }

  /** Each codec, run over its input in any pieces, computes its function of the whole input. */
  lemma CodecComputes(k: Codec, u: Setup)
    ensures Obeys(Cycle(u), LawOf(u)) && LawOf(u).live(Start(k, u))
    ensures Computes(Cycle(u), LawOf(u), Start(k, u), (x: Piece) => Computed(k, u, x))
  {
    CodecsObey(u);
    var s := Start(k, u);
    forall cs: seq<Piece> ensures Flatten(Whole(Cycle(u), LawOf(u), s, cs)) == Computed(k, u, Flatten(cs)) {
      WholeIs(k, u, cs);
    }
  }

  lemma WholeIs(k: Codec, u: Setup, cs: seq<Piece>)
    requires Obeys(Cycle(u), LawOf(u)) && LawOf(u).live(Start(k, u))
    ensures Flatten(Whole(Cycle(u), LawOf(u), Start(k, u), cs)) == Computed(k, u, Flatten(cs))
  {
    hide Qp.EncodeRun, Qp.DecodeRun, B64.EncodeRun, B64.DecodeRun, Qp.WrapRun, B64.WrapRun, GiveAll, Finish, Flatten;
    var s := Start(k, u);
    GiveAllIs(u, s, cs);
    var (s2, o) := Run(u, s, Flatten(cs));
    FinishIs(u, s2);
    FlattenJoin(GiveAll(Cycle(u), LawOf(u), s, cs).1, Finish(Cycle(u), LawOf(u), s2));
    assert o + [] == o;
  }

  // ---- chains ----

  /** The codecs one after the other. */
  function ComputedFrom(ks: seq<Codec>, u: Setup, k: nat, x: Piece): Piece
    requires k <= |ks|
    decreases |ks| - k
  {
    if k == |ks| then x else ComputedFrom(ks, u, k + 1, Computed(ks[k], u, x))
  }

  function Steps(ks: seq<Codec>, u: Setup): (fs: seq<Step<State>>)
    ensures |fs| == |ks| && forall i :: 0 <= i < |ks| ==> fs[i] == Cycle(u)
  {
    seq(|ks|, _ => Cycle(u))
  }

  function Starts(ks: seq<Codec>, u: Setup): (ss: seq<State>)
    ensures |ss| == |ks| && forall i :: 0 <= i < |ks| ==> ss[i] == Start(ks[i], u)
  {
    seq(|ks|, i requires 0 <= i < |ks| => Start(ks[i], u))
  }

  lemma {:induction false} ChainComputes(ks: seq<Codec>, u: Setup, k: nat, cs: seq<Piece>)
    requires k <= |ks|
    ensures AllObey(Steps(ks, u), LawOf(u)) && AllLive(LawOf(u), Starts(ks, u), 0)
    ensures Flatten(Pipeline(Steps(ks, u), LawOf(u), Starts(ks, u), k, cs)) == ComputedFrom(ks, u, k, Flatten(cs))
    decreases |ks| - k
  {
    hide Whole, Flatten, Computed;
    CodecsObey(u);
    forall i | 0 <= i < |ks| ensures LawOf(u).live(Start(ks[i], u)) { CodecComputes(ks[i], u); }
    if k < |ks| {
      WholeIs(ks[k], u, cs);
      ChainComputes(ks, u, k + 1, Whole(Cycle(u), LawOf(u), Start(ks[k], u), cs));
    }
  }

  lemma {:induction false} FlattenNonEmpty(cs: seq<Piece>)
    ensures Flatten(NonEmpty(cs)) == Flatten(cs)
    decreases |cs|
  {
    if cs != [] {
      FlattenNonEmpty(cs[1..]);
      FlattenJoin(if cs[0] != [] then [cs[0]] else [], NonEmpty(cs[1..]));
      FlattenOne(cs[0]);
    }
  }

  /** A chain of codecs, driven over any pieces, puts out the composition of their functions. */
  method RunChain(ks: seq<Codec>, u: Setup, cs: seq<Piece>) returns (out: seq<Piece>)
    requires ks != []
    ensures Flatten(out) == ComputedFrom(ks, u, 0, Flatten(cs))
  {
    ChainComputes(ks, u, 0, NonEmpty(cs));
    FlattenNonEmpty(cs);
    var chain := new Chain(Steps(ks, u), Starts(ks, u), LawOf(u));
    out := Drive(chain, cs, LawOf(u));
  }

  /** Encoding, wrapping and decoding quoted-printable text in a chain gives back the text, however it is cut. */
  lemma QpChain(u: Setup, x: Piece)
    requires u.length >= 4 && (u.marker == Qp.CRLF || u.marker == Qp.BINARY_EOL)
    ensures ComputedFrom([QpEncoder, QpWrapper, QpDecoder], u, 0, x) == x
  {
    hide Qp.Encode, Qp.Wrap, Qp.Decode;
    Qp.QpRoundTrip(x, u.length, u.marker);
    ThreeComputed(QpEncoder, QpWrapper, QpDecoder, u, x);
  }

  lemma B64Chain(u: Setup, x: Piece)
    ensures ComputedFrom([B64Encoder, Wrapper, B64Decoder], u, 0, x) == x
  {
    hide B64.Encode, B64.Wrap, B64.Decode;
    B64.WrappedRoundTrip(x, u.length);
    ThreeComputed(B64Encoder, Wrapper, B64Decoder, u, x);
  }

  lemma ThreeComputed(a: Codec, b: Codec, c: Codec, u: Setup, x: Piece)
    ensures ComputedFrom([a, b, c], u, 0, x) == Computed(c, u, Computed(b, u, Computed(a, u, x)))
  {
    hide Computed;
    var ks := [a, b, c];
    var y := Computed(a, u, x);
    var z := Computed(b, u, y);
    assert ComputedFrom(ks, u, 3, Computed(c, u, z)) == Computed(c, u, z);
    assert ComputedFrom(ks, u, 2, z) == Computed(c, u, z);
    assert ComputedFrom(ks, u, 1, y) == ComputedFrom(ks, u, 2, z);
  }
}
