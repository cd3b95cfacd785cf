/** Quoted-printable, section 6.7 of RFC 2045: encoder, line wrapper and decoder, byte by byte. */
module MimeQp {
  import opened ByteType

  const TAB: Byte := 9
  const LF: Byte := 10
  const CR: Byte := 13
  const SPACE: Byte := 32
  const EQ: Byte := 61
  const CRLF: seq<Byte> := [13, 10]
  const EQCRLF: seq<Byte> := [61, 13, 10]
  /** "=0D=0A", the marker for line breaks in binary data. */
  const BINARY_EOL: seq<Byte> := [61, 48, 68, 61, 48, 65]

  datatype Class = Plain | Quoted | IfLast | Cr

  /** qpclass */
  function ClassOf(c: Byte): Class {
    if (33 <= c <= 60) || (62 <= c <= 126) then Plain
    else if c == TAB || c == SPACE then IfLast
    else if c == CR then Cr
    else Quoted
  }

  /** qpbase */
  function Digit(n: nat): Byte
    requires n < 16
  {
    if n < 10 then (48 + n) as Byte else (55 + n) as Byte
  }

  /** qpunbase, with 255 for bytes that are no hexadecimal digit */
  function Undigit(c: Byte): nat {
    if 48 <= c <= 57 then c as nat - 48
    else if 65 <= c <= 70 then c as nat - 55
    else if 97 <= c <= 102 then c as nat - 87
    else 255
  }

  /** qpquote */
  function Quote(c: Byte): seq<Byte> {
    [EQ, Digit(c as nat / 16), Digit(c as nat % 16)]
  }

  lemma Digits(c: Byte)
    ensures var q := Quote(c);
            Undigit(q[1]) * 16 + Undigit(q[2]) == c as nat && Undigit(q[1]) < 16 && Undigit(q[2]) < 16
    ensures ClassOf(Quote(c)[1]) == Plain && ClassOf(Quote(c)[2]) == Plain
  {
  }

  // ---- one byte at a time ----

  /** The loop of qpencode on the pending bytes p: what it puts out, and what stays pending. */
  function Settle(p: seq<Byte>, marker: seq<Byte>): (seq<Byte>, seq<Byte>) {
    if p == [] then ([], [])
    else
      match ClassOf(p[0])
      case Cr =>
        if |p| < 2 then ([], p)
        else if p[1] == LF then (marker, [])
        else var r := Settle(p[1..], marker); (Quote(p[0]) + r.0, r.1)
      case IfLast =>
        if |p| < 3 then ([], p)
        else if p[1] == CR && p[2] == LF then (Quote(p[0]) + marker, [])
        else var r := Settle(p[1..], marker); ([p[0]] + r.0, r.1)
      case Quoted => var r := Settle(p[1..], marker); (Quote(p[0]) + r.0, r.1)
      case Plain => var r := Settle(p[1..], marker); ([p[0]] + r.0, r.1)
  }

  /** Bytes that wait for the next ones: a space and one more, or a carriage return. */
  predicate Stuck(p: seq<Byte>) {
    p == [] || (|p| <= 2 && ClassOf(p[0]) == IfLast) || (|p| == 1 && ClassOf(p[0]) == Cr)
  }

  /** qpencode over the bytes x, with p pending. */
  function EncodeRun(p: seq<Byte>, x: seq<Byte>, marker: seq<Byte>): (seq<Byte>, seq<Byte>)
    decreases |x|
  {
    if x == [] then ([], p)
    else
      var (o, p2) := Settle(p + [x[0]], marker);
      var (o2, p3) := EncodeRun(p2, x[1..], marker);
      (o + o2, p3)
  }

  /** The loop of qppad */
  function PadBytes(p: seq<Byte>): seq<Byte> {
    if p == [] then [] else (if ClassOf(p[0]) == Plain then [p[0]] else Quote(p[0])) + PadBytes(p[1..])
  }

  /** qppad */
  function Pad(p: seq<Byte>): seq<Byte> {
    if p == [] then [] else PadBytes(p) + EQCRLF
  }

  /** Everything that the encoder puts out for x. */
  function Encode(x: seq<Byte>, marker: seq<Byte>): seq<Byte> {
    var (o, p) := EncodeRun([], x, marker);
    o + Pad(p)
  }

  /** qpdecode on the pending bytes and one more */
  function DecodeStep(q: seq<Byte>): (seq<Byte>, seq<Byte>)
    requires q != []
  {
    if q[0] == EQ then
      if |q| < 3 then ([], q)
      else if q[1] == CR && q[2] == LF then ([], [])
      else if Undigit(q[1]) > 15 || Undigit(q[2]) > 15 then (q[..3], [])
      else ([(Undigit(q[1]) * 16 + Undigit(q[2])) as Byte], [])
    else if q[0] == CR then
      if |q| < 2 then ([], q) else if q[1] == LF then (q[..2], []) else ([], [])
    else if q[0] == TAB || 31 < q[0] < 127 then ([q[0]], [])
    else ([], [])
  }

  function DecodeRun(p: seq<Byte>, x: seq<Byte>): (seq<Byte>, seq<Byte>)
    decreases |x|
  {
    if x == [] then ([], p)
    else
      var (o, p2) := DecodeStep(p + [x[0]]);
      var (o2, p3) := DecodeRun(p2, x[1..]);
      (o + o2, p3)
  }

  function Decode(x: seq<Byte>): seq<Byte> {
    DecodeRun([], x).0
  }

  /** qpwrp on one byte, with `left` bytes left in the line */
  function WrapStep(left: int, c: Byte, length: int): (seq<Byte>, int) {
    if c == CR then ([], left)
    else if c == LF then (CRLF, length)
    else if left <= (if c == EQ then 3 else 1) then (EQCRLF + [c], length - 1)
    else ([c], left - 1)
  }

  function WrapRun(left: int, x: seq<Byte>, length: int): (seq<Byte>, int)
    decreases |x|
  {
    if x == [] then ([], left)
    else
      var (o, l2) := WrapStep(left, x[0], length);
      var (o2, l3) := WrapRun(l2, x[1..], length);
      (o + o2, l3)
  }

  /** What the wrapper puts out at the end of its input. */
  function WrapEnd(left: int, length: int): seq<Byte> {
    if left < length then EQCRLF else []
  }

  function Wrap(x: seq<Byte>, length: int): seq<Byte> {
    var (o, l) := WrapRun(length, x, length);
    o + WrapEnd(l, length)
  }

  // ---- runs in pieces ----

  lemma Assoc(a: seq<Byte>, b: seq<Byte>, c: seq<Byte>)
    ensures (a + b) + c == a + (b + c)
  {
  }

  lemma {:induction false} EncodePieces(p: seq<Byte>, x: seq<Byte>, y: seq<Byte>, marker: seq<Byte>)
    ensures var (o1, p1) := EncodeRun(p, x, marker); var (o2, p2) := EncodeRun(p1, y, marker);
            EncodeRun(p, x + y, marker) == (o1 + o2, p2)
    decreases |x|
  {
    if x == [] {
      assert x + y == y;
      assert [] + EncodeRun(p, y, marker).0 == EncodeRun(p, y, marker).0;
    } else {
      assert (x + y)[1..] == x[1..] + y;
      var (o, p2) := Settle(p + [x[0]], marker);
      EncodePieces(p2, x[1..], y, marker);
      var (o1, p1) := EncodeRun(p2, x[1..], marker);
      Assoc(o, o1, EncodeRun(p1, y, marker).0);
    }
  }

  lemma {:induction false} DecodePieces(p: seq<Byte>, x: seq<Byte>, y: seq<Byte>)
    ensures var (o1, p1) := DecodeRun(p, x); var (o2, p2) := DecodeRun(p1, y); DecodeRun(p, x + y) == (o1 + o2, p2)
    decreases |x|
  {
    if x == [] {
      assert x + y == y;
      assert [] + DecodeRun(p, y).0 == DecodeRun(p, y).0;
    } else {
      assert (x + y)[1..] == x[1..] + y;
      var (o, p2) := DecodeStep(p + [x[0]]);
      DecodePieces(p2, x[1..], y);
      var (o1, p1) := DecodeRun(p2, x[1..]);
      Assoc(o, o1, DecodeRun(p1, y).0);
    }
  }

  lemma {:induction false} WrapPieces(left: int, x: seq<Byte>, y: seq<Byte>, length: int)
    ensures var (o1, l1) := WrapRun(left, x, length); var (o2, l2) := WrapRun(l1, y, length);
            WrapRun(left, x + y, length) == (o1 + o2, l2)
    decreases |x|
  {
    if x == [] {
      assert x + y == y;
      assert [] + WrapRun(left, y, length).0 == WrapRun(left, y, length).0;
    } else {
      assert (x + y)[1..] == x[1..] + y;
      var (o, l2) := WrapStep(left, x[0], length);
      WrapPieces(l2, x[1..], y, length);
      var (o1, l1) := WrapRun(l2, x[1..], length);
      Assoc(o, o1, WrapRun(l1, y, length).0);
    }
  }

  // ---- what the encoder writes, as tokens ----

  datatype Token = Raw(c: Byte) | Hex(c: Byte) | Eol | Soft

  function PadTokens(x: seq<Byte>): seq<Token> {
    if x == [] then [Soft] else [if ClassOf(x[0]) == Plain then Raw(x[0]) else Hex(x[0])] + PadTokens(x[1..])
  }

  /** The form of x: line breaks stay, other controls and spaces before a break are quoted. */
  function Tokens(x: seq<Byte>): seq<Token> {
    if x == [] then []
    else
      match ClassOf(x[0])
      case Cr =>
        if |x| < 2 then PadTokens(x)
        else if x[1] == LF then [Eol] + Tokens(x[2..])
        else [Hex(x[0])] + Tokens(x[1..])
      case IfLast =>
        if |x| < 3 then PadTokens(x)
        else if x[1] == CR && x[2] == LF then [Hex(x[0]), Eol] + Tokens(x[3..])
        else [Raw(x[0])] + Tokens(x[1..])
      case Quoted => [Hex(x[0])] + Tokens(x[1..])
      case Plain => [Raw(x[0])] + Tokens(x[1..])
  }

  function Written(t: Token, marker: seq<Byte>): seq<Byte> {
    match t
    case Raw(c) => [c]
    case Hex(c) => Quote(c)
    case Eol => marker
    case Soft => EQCRLF
  }

  function WrittenAll(ts: seq<Token>, marker: seq<Byte>): seq<Byte> {
    if ts == [] then [] else Written(ts[0], marker) + WrittenAll(ts[1..], marker)
  }

  /** What a token stands for. */
  function Meaning(t: Token): seq<Byte> {
    match t
    case Raw(c) => [c]
    case Hex(c) => [c]
    case Eol => CRLF
    case Soft => []
  }

  function MeaningAll(ts: seq<Token>): seq<Byte> {
    if ts == [] then [] else Meaning(ts[0]) + MeaningAll(ts[1..])
  }

  lemma {:induction false} PadMeaning(x: seq<Byte>)
    ensures MeaningAll(PadTokens(x)) == x
    decreases |x|
  {
    if x == [] {
      assert [Soft][1..] == [];
      assert MeaningAll([]) == [];
    } else {
      PadMeaning(x[1..]);
      assert PadTokens(x)[1..] == PadTokens(x[1..]);
    }
  }

  /** The tokens of x stand for x. */
  lemma {:induction false} TokensMean(x: seq<Byte>)
    ensures MeaningAll(Tokens(x)) == x
    decreases |x|
  {
    if x != [] {
      var c, ts := x[0], Tokens(x);
      if ClassOf(c) == Cr && |x| >= 2 && x[1] == LF {
        TokensMean(x[2..]);
        assert ts[1..] == Tokens(x[2..]) && x == CRLF + x[2..];
      } else if (ClassOf(c) == Cr && |x| < 2) || (ClassOf(c) == IfLast && |x| < 3) {
        PadMeaning(x);
      } else if ClassOf(c) == IfLast && x[1] == CR && x[2] == LF {
        TokensMean(x[3..]);
        assert ts[1..] == [Eol] + Tokens(x[3..]) && ts[1..][1..] == Tokens(x[3..]);
        assert MeaningAll(ts[1..]) == CRLF + x[3..];
        assert x == [c] + (CRLF + x[3..]);
      } else {
        TokensMean(x[1..]);
        assert ts[1..] == Tokens(x[1..]);
      }
    }
  }

  lemma {:induction false} PadWritten(p: seq<Byte>, marker: seq<Byte>)
    ensures WrittenAll(PadTokens(p), marker) == PadBytes(p) + EQCRLF
    decreases |p|
  {
    if p == [] {
      assert [Soft][1..] == [];
      assert WrittenAll([], marker) == [];
    } else {
      PadWritten(p[1..], marker);
      assert PadTokens(p)[1..] == PadTokens(p[1..]);
      Assoc(if ClassOf(p[0]) == Plain then [p[0]] else Quote(p[0]), PadBytes(p[1..]), EQCRLF);
    }
  }

  lemma StuckTokens(p: seq<Byte>)
    requires Stuck(p) && p != []
    ensures Tokens(p) == PadTokens(p)
  {
  }

  lemma WrittenOne(t: Token, ts: seq<Token>, marker: seq<Byte>)
    ensures WrittenAll([t] + ts, marker) == Written(t, marker) + WrittenAll(ts, marker)
  {
    assert ([t] + ts)[1..] == ts;
  }

  lemma SettleEol(q: seq<Byte>, rest: seq<Byte>, marker: seq<Byte>)
    requires q == CRLF
    ensures Settle(q, marker) == (marker, []) && Tokens(q + rest) == [Eol] + Tokens(rest)
  {
    assert (q + rest)[2..] == rest;
  }

  lemma SettleSpaceEol(q: seq<Byte>, rest: seq<Byte>, marker: seq<Byte>)
    requires |q| == 3 && ClassOf(q[0]) == IfLast && q[1] == CR && q[2] == LF
    ensures Settle(q, marker) == (Quote(q[0]) + marker, []) && Tokens(q + rest) == [Hex(q[0])] + ([Eol] + Tokens(rest))
  {
    assert (q + rest)[3..] == rest;
    assert [Hex(q[0]), Eol] + Tokens(rest) == [Hex(q[0])] + ([Eol] + Tokens(rest));
  }

  /** The first pending byte is settled on its own. */
  predicate Alone(q: seq<Byte>) {
    && q != []
    && (ClassOf(q[0]) == Cr ==> |q| >= 2 && q[1] != LF)
    && (ClassOf(q[0]) == IfLast ==> |q| >= 3 && !(q[1] == CR && q[2] == LF))
  }

  function FirstToken(c: Byte): Token {
    if ClassOf(c) == Cr || ClassOf(c) == Quoted then Hex(c) else Raw(c)
  }

  lemma SettleFirst(q: seq<Byte>, rest: seq<Byte>, marker: seq<Byte>)
    requires Alone(q)
    ensures var (o, p) := Settle(q[1..], marker); Settle(q, marker) == (Written(FirstToken(q[0]), marker) + o, p)
    ensures Tokens(q + rest) == [FirstToken(q[0])] + Tokens(q[1..] + rest)
  {
    assert (q + rest)[1..] == q[1..] + rest;
  }

  /** What is put out for the pending bytes q is the front of what is written for all of them. */
  lemma {:induction false} SettleTokens(q: seq<Byte>, rest: seq<Byte>, marker: seq<Byte>)
    requires |q| <= 3 && (|q| == 3 ==> ClassOf(q[0]) == IfLast)
    ensures var (o, p) := Settle(q, marker);
            Stuck(p) && WrittenAll(Tokens(q + rest), marker) == o + WrittenAll(Tokens(p + rest), marker)
    decreases |q|
  {
    hide Tokens, WrittenAll;
    if Alone(q) {
      SettleTokens(q[1..], rest, marker);
      SettleFirst(q, rest, marker);
      hide *;
      WrittenOne(FirstToken(q[0]), Tokens(q[1..] + rest), marker);
      var (o, p) := Settle(q[1..], marker);
      Assoc(Written(FirstToken(q[0]), marker), o, WrittenAll(Tokens(p + rest), marker));
    } else if q == CRLF {
      SettleEol(q, rest, marker);
      WrittenOne(Eol, Tokens(rest), marker);
      assert [] + rest == rest;
    } else if |q| == 3 {
      SettleSpaceEol(q, rest, marker);
      WrittenOne(Hex(q[0]), [Eol] + Tokens(rest), marker);
      WrittenOne(Eol, Tokens(rest), marker);
      assert [] + rest == rest;
      Assoc(Quote(q[0]), marker, WrittenAll(Tokens(rest), marker));
    }
  }

  lemma StuckWritten(p: seq<Byte>, marker: seq<Byte>)
    requires Stuck(p)
    ensures Pad(p) == WrittenAll(Tokens(p), marker)
  {
    if p != [] {
      StuckTokens(p);
      PadWritten(p, marker);
    }
  }

  lemma StuckSize(p: seq<Byte>, c: Byte)
    requires Stuck(p)
    ensures |p + [c]| <= 3 && (|p + [c]| == 3 ==> ClassOf((p + [c])[0]) == IfLast)
  {
  }

  /** However the pending bytes p came about, the encoder writes the tokens of all its bytes. */
  lemma {:induction false} EncodeFrom(p: seq<Byte>, x: seq<Byte>, marker: seq<Byte>)
    requires Stuck(p)
    ensures var (o, p2) := EncodeRun(p, x, marker); Stuck(p2) && o + Pad(p2) == WrittenAll(Tokens(p + x), marker)
    decreases |x|
  {
    hide Tokens, WrittenAll, Stuck, Settle;
    if x == [] {
      assert p + x == p;
      StuckWritten(p, marker);
      assert [] + Pad(p) == Pad(p);
    } else {
      StuckSize(p, x[0]);
      SettleTokens(p + [x[0]], x[1..], marker);
      assert p + [x[0]] + x[1..] == p + x;
      var (o, p2) := Settle(p + [x[0]], marker);
      EncodeFrom(p2, x[1..], marker);
      var (o2, p3) := EncodeRun(p2, x[1..], marker);
      Assoc(o, o2, Pad(p3));
    }
  }

  lemma EncodeIs(x: seq<Byte>, marker: seq<Byte>)
    ensures Encode(x, marker) == WrittenAll(Tokens(x), marker)
  {
    EncodeFrom([], x, marker);
    assert [] + x == x;
  }

  // ---- wrapping and decoding a token ----

  predicate GoodToken(t: Token) {
    t.Raw? ==> ClassOf(t.c) == Plain || ClassOf(t.c) == IfLast
  }

  /** A token is never split: a soft break comes before it exactly when it does not leave room for another one. */
  lemma WrapToken(t: Token, left: int, length: int)
    requires length >= 4 && GoodToken(t) && !t.Eol?
    ensures var w := Written(t, CRLF); var (o, l) := WrapRun(left, w, length);
            o == if left <= |w| then EQCRLF + w else w
  {
    var w := Written(t, CRLF);
    match t
    case Raw(c) => WrapOne(left, c, length);
    case Hex(c) =>
      Digits(c);
      WrapThree(left, w[0], w[1], w[2], length);
    case Soft => WrapThree(left, w[0], w[1], w[2], length);
  }

  lemma WrapOne(left: int, c: Byte, length: int)
    ensures WrapRun(left, [c], length) == WrapStep(left, c, length)
  {
    var (o, l) := WrapStep(left, c, length);
    assert WrapRun(l, [c][1..], length) == ([], l);
    assert o + [] == o;
    assert WrapRun(left, [c], length) == (o + [], l);
  }

  lemma WrapThree(left: int, a: Byte, b: Byte, c: Byte, length: int)
    ensures var (o1, l1) := WrapStep(left, a, length); var (o2, l2) := WrapStep(l1, b, length);
            var (o3, l3) := WrapStep(l2, c, length);
            WrapRun(left, [a, b, c], length) == (o1 + o2 + o3, l3)
  {
    var (o1, l1) := WrapStep(left, a, length);
    var (o2, l2) := WrapStep(l1, b, length);
    WrapOne(l2, c, length);
    assert [a, b, c][1..] == [b, c] && [b, c][1..] == [c];
    Assoc(o1, o2, WrapStep(l2, c, length).0);
  }

  lemma DecodeOne(c: Byte)
    requires (ClassOf(c) == Plain || ClassOf(c) == IfLast)
    ensures DecodeRun([], [c]) == ([c], [])
  {
    assert [] + [c] == [c];
    assert DecodeStep([c]) == ([c], []);
    assert DecodeRun([], [c][1..]) == ([], []);
    assert DecodeRun([], [c]) == ([c] + [], []);
    assert [c] + [] == [c];
  }

  lemma DecodeThree(a: Byte, b: Byte, c: Byte)
    requires a == EQ
    ensures DecodeRun([], [a, b, c]) == DecodeStep([a, b, c])
  {
    assert [] + [a] == [a] && [a] + [b] == [a, b] && [a, b] + [c] == [a, b, c];
    assert [a, b, c][1..] == [b, c] && [b, c][1..] == [c] && [c][1..] == [];
    assert DecodeStep([a]) == ([], [a]);
    assert DecodeStep([a, b]) == ([], [a, b]);
    var (o, p) := DecodeStep([a, b, c]);
    assert DecodeRun(p, []) == ([], p);
    assert DecodeRun([a, b], [c]) == (o + [], p);
    assert o + [] == o;
    assert DecodeRun([a], [b, c]) == ([] + o, p);
    assert [] + o == o;
    assert DecodeRun([], [a, b, c]) == ([] + o, p);
  }

  /** A written token, with or without a soft break in front, is decoded to its meaning. */
  lemma DecodeToken(t: Token, broken: bool)
    requires GoodToken(t) && !t.Eol?
    ensures DecodeRun([], (if broken then EQCRLF else []) + Written(t, CRLF)) == (Meaning(t), [])
  {
    var w := Written(t, CRLF);
    match t {
      case Raw(c) => DecodeOne(c);
      case Hex(c) => Digits(c); DecodeThree(w[0], w[1], w[2]);
      case Soft => DecodeThree(w[0], w[1], w[2]);
    }
    if broken {
      DecodeThree(EQ, CR, LF);
      DecodePieces([], EQCRLF, w);
      assert [] + Meaning(t) == Meaning(t);
    } else {
      assert [] + w == w;
    }
  }

  lemma EolThrough(left: int, length: int)
    ensures WrapRun(left, CRLF, length) == (CRLF, length) && DecodeRun([], CRLF) == (CRLF, [])
  {
    assert CRLF[1..] == [LF] && [LF][1..] == [];
    WrapOne(left, LF, length);
    assert [] + CRLF == CRLF;
    assert [] + [CR] == [CR] && [CR] + [LF] == CRLF;
    assert DecodeStep([CR]) == ([], [CR]) && DecodeStep(CRLF) == (CRLF, []);
    assert DecodeRun([], []) == ([], []);
    assert DecodeRun([CR], [LF]) == (CRLF + [], []);
    assert CRLF + [] == CRLF;
  }

  /** Wrapping and then decoding what is written for a token gives its meaning. */
  lemma TokenThrough(t: Token, left: int, length: int, marker: seq<Byte>)
    requires length >= 4 && GoodToken(t) && (marker == CRLF || marker == BINARY_EOL)
    ensures DecodeRun([], WrapRun(left, Written(t, marker), length).0) == (Meaning(t), [])
    decreases if t.Eol? then 2 else 0
  {
    if !t.Eol? {
      assert Written(t, marker) == Written(t, CRLF);
      WrapToken(t, left, length);
      DecodeToken(t, false);
      DecodeToken(t, true);
      assert [] + Written(t, CRLF) == Written(t, CRLF);
    } else if marker == CRLF {
      EolThrough(left, length);
    } else {
      BinaryEol(left, length);
    }
  }

  lemma BinaryEol(left: int, length: int)
    requires length >= 4
    ensures DecodeRun([], WrapRun(left, BINARY_EOL, length).0) == (CRLF, [])
    decreases 1
  {
    assert BINARY_EOL == Quote(13) + Quote(10);
    WrapPieces(left, Quote(13), Quote(10), length);
    var (o1, l1) := WrapRun(left, Quote(13), length);
    TokenThrough(Hex(13), left, length, CRLF);
    TokenThrough(Hex(10), l1, length, CRLF);
    DecodePieces([], o1, WrapRun(l1, Quote(10), length).0);
    assert [13] + [10] == CRLF;
  }

  predicate GoodTokens(ts: seq<Token>) {
    forall i :: 0 <= i < |ts| ==> GoodToken(ts[i])
  }

  lemma {:induction false} TokensGood(x: seq<Byte>)
    ensures GoodTokens(Tokens(x))
    decreases |x|
  {
    if x != [] {
      if ClassOf(x[0]) == Cr && |x| >= 2 && x[1] == LF {
        TokensGood(x[2..]);
      } else if (ClassOf(x[0]) == Cr && |x| < 2) || (ClassOf(x[0]) == IfLast && |x| < 3) {
        PadGood(x);
      } else if ClassOf(x[0]) == IfLast && x[1] == CR && x[2] == LF {
        TokensGood(x[3..]);
      } else {
        TokensGood(x[1..]);
      }
    }
  }

  lemma {:induction false} PadGood(x: seq<Byte>)
    ensures GoodTokens(PadTokens(x))
    decreases |x|
  {
    if x != [] { PadGood(x[1..]); }
  }

  lemma {:induction false} TokensThrough(ts: seq<Token>, left: int, length: int, marker: seq<Byte>)
    requires length >= 4 && GoodTokens(ts) && (marker == CRLF || marker == BINARY_EOL)
    ensures DecodeRun([], WrapRun(left, WrittenAll(ts, marker), length).0) == (MeaningAll(ts), [])
    decreases |ts|
  {
    if ts != [] {
      var w, rest := Written(ts[0], marker), WrittenAll(ts[1..], marker);
      WrapPieces(left, w, rest, length);
      var (o, l) := WrapRun(left, w, length);
      TokenThrough(ts[0], left, length, marker);
      TokensThrough(ts[1..], l, length, marker);
      DecodePieces([], o, WrapRun(l, rest, length).0);
    }
  }

  /** Decoding the wrapped encoding of x gives x, with either marker and lines of 4 bytes or more. */
  lemma QpRoundTrip(x: seq<Byte>, length: int, marker: seq<Byte>)
    requires length >= 4 && (marker == CRLF || marker == BINARY_EOL)
    ensures Decode(Wrap(Encode(x, marker), length)) == x
  {
    hide Tokens, WrittenAll, MeaningAll, DecodeRun, WrapRun, Encode;
    EncodeIs(x, marker);
    TokensGood(x);
    TokensMean(x);
    TokensThrough(Tokens(x), length, length, marker);
    var (o, l) := WrapRun(length, Encode(x, marker), length);
    DecodePieces([], o, WrapEnd(l, length));
    EndThrough(l, length);
    assert x + [] == x;
  }

  lemma EndThrough(left: int, length: int)
    ensures DecodeRun([], WrapEnd(left, length)).0 == []
  {
    DecodeThree(EQ, CR, LF);
  }

  /** Shorter lines break an encoded byte in two, which is then not decoded. */
  lemma ShortLines(length: int, marker: seq<Byte>)
    requires length < 4
    ensures Decode(Wrap(Encode([0], marker), length)) != [0]
  {
    ZeroEncoded(marker);
    var (o1, l1) := WrapStep(length, EQ, length);
    var (o2, l2) := WrapStep(l1, 48, length);
    var (o3, l3) := WrapStep(l2, 48, length);
    WrapThree(length, EQ, 48, 48, length);
    var y := o1 + o2 + o3 + WrapEnd(l3, length);
    assert y[..3] == EQCRLF && y[3] == EQ && |y| >= 6 && (y[4] == EQ || y[5] == EQ);
    BrokenByte(y);
  }

  lemma BrokenByte(y: seq<Byte>)
    requires |y| >= 6 && y[..3] == EQCRLF && y[3] == EQ && (y[4] == EQ || y[5] == EQ)
    ensures Decode(y) != [0]
  {
    var rest := y[6..];
    assert y == EQCRLF + ([y[3], y[4], y[5]] + rest);
    DecodeThree(EQ, CR, LF);
    DecodeThree(y[3], y[4], y[5]);
    hide DecodeRun;
    DecodePieces([], EQCRLF, [y[3], y[4], y[5]] + rest);
    DecodePieces([], [y[3], y[4], y[5]], rest);
  }

  lemma ZeroEncoded(marker: seq<Byte>)
    ensures Encode([0], marker) == [EQ, 48, 48]
  {
    EncodeIs([0], marker);
    assert [0][1..] == [];
    assert Tokens([]) == [];
    assert Tokens([0]) == [Hex(0)] + [];
    WrittenOne(Hex(0), [], marker);
    assert WrittenAll([], marker) == [];
  }

  // ---- line lengths ----

  /** No line of s, the first of which has `col` bytes already, is longer than `length`. */
  predicate LinesFit(col: int, s: seq<Byte>, length: int)
    decreases |s|
  {
    s == []
    || (if s[0] == LF then LinesFit(0, s[1..], length)
        else if s[0] == CR then LinesFit(col, s[1..], length)
        else col + 1 <= length && LinesFit(col + 1, s[1..], length))
  }

  /** The column after s. */
  function Column(col: int, s: seq<Byte>): int
    decreases |s|
  {
    if s == [] then col else Column(if s[0] == LF then 0 else if s[0] == CR then col else col + 1, s[1..])
  }

  lemma {:induction false} LinesJoin(col: int, s: seq<Byte>, t: seq<Byte>, length: int)
    ensures LinesFit(col, s + t, length) <==> LinesFit(col, s, length) && LinesFit(Column(col, s), t, length)
    ensures Column(col, s + t) == Column(Column(col, s), t)
    decreases |s|
  {
    if s == [] {
      assert s + t == t;
    } else {
      assert (s + t)[1..] == s[1..] + t;
      LinesJoin(if s[0] == LF then 0 else if s[0] == CR then col else col + 1, s[1..], t, length);
    }
  }

  lemma SoftBreak(col: int, length: int)
    requires col + 1 <= length
    ensures LinesFit(col, EQCRLF, length) && Column(col, EQCRLF) == 0
  {
    assert EQCRLF[1..] == CRLF && CRLF[1..] == [LF] && [LF][1..] == [];
    assert LinesFit(col + 1, CRLF, length) && Column(col + 1, CRLF) == 0;
  }

  lemma OneByte(col: int, c: Byte, length: int)
    requires c != CR && c != LF && col + 1 <= length
    ensures LinesFit(col, [c], length) && Column(col, [c]) == col + 1
  {
    assert [c][1..] == [];
  }

  lemma HardBreak(col: int, length: int)
    ensures LinesFit(col, CRLF, length) && Column(col, CRLF) == 0
  {
    assert CRLF[1..] == [LF] && [LF][1..] == [];
  }

  lemma WrapStepFits(left: int, c: Byte, length: int)
    requires length >= 4 && 1 <= left <= length
    ensures var (o, l) := WrapStep(left, c, length);
            1 <= l <= length && LinesFit(length - left, o, length) && Column(length - left, o) == length - l
  {
    if c == LF {
      HardBreak(length - left, length);
    } else if c != CR {
      if left <= (if c == EQ then 3 else 1) {
        SoftBreak(length - left, length);
        OneByte(0, c, length);
        LinesJoin(length - left, EQCRLF, [c], length);
      } else {
        OneByte(length - left, c, length);
      }
    }
  }

  lemma {:induction false} WrapRunFits(left: int, x: seq<Byte>, length: int)
    requires length >= 4 && 1 <= left <= length
    ensures var (o, l) := WrapRun(left, x, length);
            1 <= l <= length && LinesFit(length - left, o, length) && Column(length - left, o) == length - l
    decreases |x|
  {
    if x != [] {
      WrapStepFits(left, x[0], length);
      var (o, l2) := WrapStep(left, x[0], length);
      WrapRunFits(l2, x[1..], length);
      LinesJoin(length - left, o, WrapRun(l2, x[1..], length).0, length);
    }
  }

  /** No line that the wrapper makes, its soft break included, is longer than `length`, whatever its input. */
  lemma WrapFits(x: seq<Byte>, length: int)
    requires length >= 4
    ensures LinesFit(0, Wrap(x, length), length)
  {
    WrapRunFits(length, x, length);
    var (o, l) := WrapRun(length, x, length);
    if l < length { SoftBreak(length - l, length); }
    LinesJoin(0, o, WrapEnd(l, length), length);
  }
}
